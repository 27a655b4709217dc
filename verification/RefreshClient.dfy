/**
 * The single-flight refresh of the web client, run against the session service. Callers, requests, responses, losses
 * and whatever other sessions do interleave freely; each server call is one step.
 */
module RefreshClient {
  import opened Basics
  import opened Sessions

  /** One `apiFetch` call: its first request, the wait for a refresh after a 401, and the one retry. */
  datatype Phase = Requesting | Waiting | Retrying | Finished

  /** A refresh on its way: the cookie it carries, or what the server made of it. */
  datatype Flight = ToServer(cookie: int) | Rotation(token: int) | Rejection

  /** `pending` is whether `refreshPromise` is set. */
  datatype Client = Client(cookie: int, pending: bool, wire: seq<Flight>, callers: map<int, Phase>)

  /** `getOrStartRefresh` */
  function Join(c: Client, caller: int): Client {
    var waiting := c.(callers := c.callers[caller := Waiting]);
    if c.pending then waiting else waiting.(pending := true, wire := c.wire + [ToServer(c.cookie)])
  }

  /** The first response of a caller. */
  function Answer(c: Client, caller: int, unauthorized: bool): Client {
    if caller !in c.callers || c.callers[caller] != Requesting then c
    else if unauthorized then Join(c, caller)
    else c.(callers := c.callers[caller := Finished])
  }

  /** The refresh settles: everyone waiting retries with the new token, or gets the 401 back. */
  function Settle(c: Client, ok: bool): Client {
    var next := if ok then Retrying else Finished;
    c.(pending := false, callers := map k | k in c.callers :: if c.callers[k] == Waiting then next else c.callers[k])
  }

  function Without(wire: seq<Flight>, i: nat): seq<Flight>
    requires i < |wire|
  {
    wire[..i] + wire[i + 1..]
  }

  /** A response arrives: the browser takes over the cookie it sets. */
  function Receive(c: Client, i: nat): Client
    requires i < |c.wire|
  {
    var landed := c.(wire := Without(c.wire, i));
    match c.wire[i]
    case ToServer(_) => c
    case Rotation(token) => Settle(landed.(cookie := token), true)
    case Rejection => Settle(landed, false)
  }

  /** A request or response is lost: `fetch` rejects. */
  function Lose(c: Client, i: nat): Client
    requires i < |c.wire|
  {
    Settle(c.(wire := Without(c.wire, i)), false)
  }

  // ---------- client and server together ----------

  /** `stranded` records that the family has moved on without the client being told. */
  datatype System = System(server: History, client: Client, stranded: bool)

  datatype Event =
    | Call(caller: int)
    | Answered(caller: int, unauthorized: bool)
    | Serve(i: nat, members: set<Membership>, now: int)
    | Arrive(i: nat)
    | Drop(i: nat)
    | RetryAnswered(caller: int)
    | Elsewhere(e: Sessions.Event)

  /** What the server does with the i-th request on the wire. */
  function Request(s: System, e: Event): Sessions.Event
    requires e.Serve? && e.i < |s.client.wire| && s.client.wire[e.i].ToServer?
  {
    DoRefresh(s.client.wire[e.i].cookie, e.members, e.now)
  }

  function Response(o: Outcome): Flight {
    if o.Rotated? then Rotation(o.token) else Rejection
  }

  function Step(s: System, e: Event, ttl: nat): System {
    var c := s.client;
    match e
    case Call(k) => if k in c.callers then s else s.(client := c.(callers := c.callers[k := Requesting]))
    case Answered(k, unauthorized) => s.(client := Answer(c, k, unauthorized))
    case RetryAnswered(k) =>
      if k in c.callers && c.callers[k] == Retrying then s.(client := c.(callers := c.callers[k := Finished])) else s
    case Serve(i, members, now) =>
      if i >= |c.wire| || !c.wire[i].ToServer? then s
      else
        var request := DoRefresh(c.wire[i].cookie, members, now);
        var outcome := Apply(s.server.table, request, ttl).outcome;
        System(Sessions.Step(s.server, request, ttl), c.(wire := c.wire[i := Response(outcome)]),
               s.stranded || outcome.AccessLost?)
    case Arrive(i) => if i >= |c.wire| then s else s.(client := Receive(c, i))
    case Drop(i) => if i >= |c.wire| then s else System(s.server, Lose(c, i), s.stranded || c.wire[i].Rotation?)
    case Elsewhere(x) =>
      System(Sessions.Step(s.server, x, ttl), c,
             || s.stranded
             || (x.DoLogoutAll? && c.cookie in s.server.table.rows && s.server.table.rows[c.cookie].user == x.user))
  }

  function Run(s: System, es: seq<Event>, ttl: nat): System
    decreases es
  {
    if es == [] then s else Run(Step(s, es[0], ttl), es[1..], ttl)
  }

  // ---------- invariants ----------

  ghost predicate InFamily(t: Table, token: int, family: int) {
    token in t.rows && t.rows[token].family == family
  }

  /** At most one refresh is in flight, exactly while the promise is set, and whoever waits waits for it. */
  ghost predicate SingleFlight(c: Client) {
    && |c.wire| == (if c.pending then 1 else 0)
    && (forall k :: k in c.callers && c.callers[k] == Waiting ==> c.pending)
  }

  /** The client holds, or is about to be told, the family's one live token. */
  ghost predicate Current(s: System, family: int) {
    var c, t := s.client, s.server.table;
    && (c.wire == [] || c.wire[0].Rejection? ==> Live(t, c.cookie))
    && (c.wire != [] && c.wire[0].ToServer? ==> c.wire[0].cookie == c.cookie && Live(t, c.cookie))
    && (c.wire != [] && c.wire[0].Rotation? ==>
          Live(t, c.wire[0].token) && InFamily(t, c.wire[0].token, family) && !Live(t, c.cookie))
  }

  /** The client holds a spent token and nothing on the wire will replace it by a live one. */
  ghost predicate Behind(s: System, family: int) {
    var c, t := s.client, s.server.table;
    && !Live(t, c.cookie)
    && (c.wire != [] && c.wire[0].ToServer? ==> c.wire[0].cookie == c.cookie)
    && (c.wire != [] && c.wire[0].Rotation? ==> !Live(t, c.wire[0].token) && InFamily(t, c.wire[0].token, family))
  }

  ghost predicate Good(s: System, family: int) {
    && Valid(s.server)
    && SingleFlight(s.client)
    && InFamily(s.server.table, s.client.cookie, family)
    && if s.stranded then Behind(s, family) else Current(s, family)
  }

  /** No one else presents a token of this family, and the family's token does not leave this browser. */
  ghost predicate Private(s: System, e: Event, family: int) {
    e.Elsewhere? && (e.e.DoRefresh? || e.e.DoSwitch? || e.e.DoLogout?) ==> !InFamily(s.server.table, e.e.token, family)
  }

  ghost predicate AllPrivate(s: System, es: seq<Event>, ttl: nat, family: int)
    decreases es
  {
    es != [] ==> Private(s, es[0], family) && AllPrivate(Step(s, es[0], ttl), es[1..], ttl, family)
  }

  lemma StepKeepsSingleFlight(s: System, e: Event, ttl: nat)
    requires SingleFlight(s.client)
    ensures SingleFlight(Step(s, e, ttl).client)
  {
    hide Sessions.Step, Apply;
  }

  /** Whatever happens elsewhere leaves the family's rows alone, unless the user logs out everywhere. */
  lemma ElsewhereKeepsFamily(h: History, x: Sessions.Event, ttl: nat, family: int, k: int)
    requires Valid(h) && InFamily(h.table, k, family)
    requires (x.DoRefresh? || x.DoSwitch? || x.DoLogout?) ==> !InFamily(h.table, x.token, family)
    ensures var u := Sessions.Step(h, x, ttl).table;
            && InFamily(u, k, family)
            && (Live(u, k) <==> Live(h.table, k) && !(x.DoLogoutAll? && h.table.rows[k].user == x.user))
  {
    if x.DoLogoutAll? {
      LogoutAllIsExact(h.table, x.user, k);
    } else {
      OtherFamiliesUntouched(h.table, x, ttl, k);
    }
  }

  /** What serving a refresh does to the family. */
  lemma ServedRefresh(h: History, token: int, members: set<Membership>, now: int, ttl: nat, family: int)
    requires Valid(h) && InFamily(h.table, token, family)
    ensures var r := Apply(h.table, DoRefresh(token, members, now), ttl);
            && InFamily(r.table, token, family)
            && (r.outcome.ReuseDetected? <==> !Live(h.table, token))
            && (r.outcome.Rotated? || r.outcome.AccessLost? || r.outcome.ReuseDetected? ==> !Live(r.table, token))
            && (r.outcome.Rotated? ==> InFamily(r.table, r.outcome.token, family) && Live(r.table, r.outcome.token))
            && (r.outcome.Rotated? || r.outcome.AccessLost? || r.outcome.ReuseDetected? || r.table == h.table)
  {
  }

  lemma ServeKeepsGood(s: System, e: Event, ttl: nat, family: int)
    requires Good(s, family) && e.Serve? && e.i < |s.client.wire| && s.client.wire[e.i].ToServer?
    ensures Good(Step(s, e, ttl), family)
  {
    StepKeepsValid(s.server, Request(s, e), ttl);
    StepKeepsSingleFlight(s, e, ttl);
    ServedRefresh(s.server, s.client.cookie, e.members, e.now, ttl, family);
    hide Valid, Apply, Live;
  }

  lemma ElsewhereKeepsGood(s: System, e: Event, ttl: nat, family: int)
    requires Good(s, family) && e.Elsewhere? && Private(s, e, family)
    ensures Good(Step(s, e, ttl), family)
  {
    var h, c := s.server, s.client;
    StepKeepsValid(h, e.e, ttl);
    ElsewhereKeepsFamily(h, e.e, ttl, family, c.cookie);
    if c.wire != [] && c.wire[0].Rotation? && InFamily(h.table, c.wire[0].token, family) {
      ElsewhereKeepsFamily(h, e.e, ttl, family, c.wire[0].token);
      assert h.table.rows[c.wire[0].token].user == h.table.rows[c.cookie].user;
    }
    hide Valid, Sessions.Step, Live;
  }

  lemma StepKeepsGood(s: System, e: Event, ttl: nat, family: int)
    requires Good(s, family) && Private(s, e, family)
    ensures Good(Step(s, e, ttl), family)
  {
    StepKeepsSingleFlight(s, e, ttl);
    if e.Serve? && e.i < |s.client.wire| && s.client.wire[e.i].ToServer? {
      ServeKeepsGood(s, e, ttl, family);
    } else if e.Elsewhere? {
      ElsewhereKeepsGood(s, e, ttl, family);
    } else {
      hide Valid, Apply, Live, InFamily, Sessions.Step;
    }
  }

  lemma {:induction false} RunKeepsGood(s: System, es: seq<Event>, ttl: nat, family: int)
    requires Good(s, family) && AllPrivate(s, es, ttl, family)
    ensures Good(Run(s, es, ttl), family)
    decreases es
  {
    if es == [] {
    } else {
      StepKeepsGood(s, es[0], ttl, family);
      RunKeepsGood(Step(s, es[0], ttl), es[1..], ttl, family);
    }
  }

  /** The browser right after a login: the cookie is the family's fresh session and nothing is on its way. */
  ghost predicate LoggedIn(s: System, family: int) {
    && Valid(s.server) && Live(s.server.table, s.client.cookie) && InFamily(s.server.table, s.client.cookie, family)
    && s.client == Client(s.client.cookie, false, [], map[]) && !s.stranded
  }

  /**
   * After a login, under any interleaving of callers, servers, losses and other sessions: at most one refresh is in
   * flight; as long as the client has not been stranded its cookie is the family's one live token whenever none is;
   * and serving its request detects reuse exactly if it has been stranded before, by a lost rotation, a membership
   * lost in mid-refresh, or the user logging out everywhere.
   */
  lemma ReuseIffStranded(s: System, es: seq<Event>, e: Event, ttl: nat, family: int)
    requires LoggedIn(s, family) && AllPrivate(s, es, ttl, family)
    ensures var u := Run(s, es, ttl);
            && |u.client.wire| <= 1
            && (!u.stranded && u.client.wire == [] ==>
                  forall k ::
                    Live(u.server.table, k) && u.server.table.rows[k].family == family <==> k == u.client.cookie)
            && (e.Serve? && e.i < |u.client.wire| && u.client.wire[e.i].ToServer? ==>
                  (Apply(u.server.table, Request(u, e), ttl).outcome.ReuseDetected? <==> u.stranded))
  {
    RunKeepsGood(s, es, ttl, family);
    var u := Run(s, es, ttl);
    if e.Serve? && e.i < |u.client.wire| && u.client.wire[e.i].ToServer? {
      ServedRefresh(u.server, u.client.cookie, e.members, e.now, ttl, family);
      hide Apply;
    }
  }

  /** No response is lost, the membership is kept, and the user does not log out everywhere. */
  ghost predicate Calm(s: System, e: Event) {
    match e
    case Drop(i) => i < |s.client.wire| ==> !s.client.wire[i].Rotation?
    case Serve(i, members, _) =>
      s.client.cookie in s.server.table.rows ==>
        Membership(s.server.table.rows[s.client.cookie].user, s.server.table.rows[s.client.cookie].workspace) in members
    case Elsewhere(x) => !x.DoLogoutAll?
    case _ => true
  }

  ghost predicate AllCalm(s: System, es: seq<Event>, ttl: nat)
    decreases es
  {
    es != [] ==> Calm(s, es[0]) && AllCalm(Step(s, es[0], ttl), es[1..], ttl)
  }

  lemma CalmServe(s: System, e: Event, ttl: nat, family: int)
    requires Good(s, family) && !s.stranded && Calm(s, e)
    ensures !Step(s, e, ttl).stranded
  {
    hide Valid;
  }

  /** Then reuse detection is never reached. */
  lemma {:induction false} CalmIsNeverStranded(s: System, es: seq<Event>, ttl: nat, family: int)
    requires Good(s, family) && !s.stranded && AllPrivate(s, es, ttl, family) && AllCalm(s, es, ttl)
    ensures !Run(s, es, ttl).stranded && family !in Run(s, es, ttl).server.burned
    decreases es
  {
    hide Step, Valid, SingleFlight;
    if es == [] {
      CurrentIsNotBurned(s, family);
    } else {
      CalmServe(s, es[0], ttl, family);
      StepKeepsGood(s, es[0], ttl, family);
      CalmIsNeverStranded(Step(s, es[0], ttl), es[1..], ttl, family);
    }
  }

  lemma CurrentIsNotBurned(s: System, family: int)
    requires Good(s, family) && !s.stranded
    ensures family !in s.server.burned
  {
    var c, t := s.client, s.server.table;
    var k := if c.wire != [] && c.wire[0].Rotation? then c.wire[0].token else c.cookie;
    assert Live(t, k) && t.rows[k].family == family;
  }

  // ---------- each caller ----------

  predicate Moves(c: Client, d: Client, k: int, from: Phase, to: Phase) {
    k in c.callers && k in d.callers && c.callers[k] == from && d.callers[k] == to
  }

  /** How often the caller takes this step in a run. */
  function Times(s: System, es: seq<Event>, ttl: nat, k: int, from: Phase, to: Phase): nat
    decreases es
  {
    if es == [] then 0
    else
      var t := Step(s, es[0], ttl);
      (if Moves(s.client, t.client, k, from, to) then 1 else 0) + Times(t, es[1..], ttl, k, from, to)
  }

  /** A phase is only ever left for a later one, and only in the one order. */
  lemma CallerStep(s: System, e: Event, ttl: nat, k: int)
    ensures var c, d := s.client.callers, Step(s, e, ttl).client.callers;
            && (k !in c && k in d ==> d[k] == Requesting)
            && (k in c ==>
                  && k in d
                  && (d[k] == c[k]
                      || (c[k] == Requesting && (d[k] == Waiting || d[k] == Finished))
                      || (c[k] == Waiting && (d[k] == Retrying || d[k] == Finished))
                      || (c[k] == Retrying && d[k] == Finished)))
  {
    hide Sessions.Step, Apply;
  }

  lemma {:induction false} CallerBudget(s: System, es: seq<Event>, ttl: nat, k: int)
    ensures var joins := Times(s, es, ttl, k, Requesting, Waiting);
            var retries := Times(s, es, ttl, k, Waiting, Retrying);
            if k !in s.client.callers || s.client.callers[k] == Requesting then joins <= 1 && retries <= joins
            else if s.client.callers[k] == Waiting then joins == 0 && retries <= 1
            else joins == 0 && retries == 0
    decreases es
  {
    if es == [] {
    } else {
      CallerStep(s, es[0], ttl, k);
      CallerBudget(Step(s, es[0], ttl), es[1..], ttl, k);
      hide Step;
    }
  }

  /** Every call joins at most one refresh and sends at most one retry, and no retry without having joined. */
  lemma OneRefreshOneRetry(s: System, es: seq<Event>, ttl: nat, k: int)
    requires k !in s.client.callers
    ensures Times(s, es, ttl, k, Requesting, Waiting) <= 1
    ensures Times(s, es, ttl, k, Waiting, Retrying) <= Times(s, es, ttl, k, Requesting, Waiting)
  {
    CallerBudget(s, es, ttl, k);
  }

  /** Whoever waits when the refresh settles retries if it brought a token and is done otherwise; nobody else moves. */
  lemma SettledCallers(c: Client, i: nat, k: int)
    requires i < |c.wire| && k in c.callers
    ensures c.wire[i].Rotation? ==>
              && k in Receive(c, i).callers && Receive(c, i).cookie == c.wire[i].token
              && Receive(c, i).callers[k] == if c.callers[k] == Waiting then Retrying else c.callers[k]
    ensures c.wire[i].Rejection? ==>
              && k in Receive(c, i).callers && Receive(c, i).cookie == c.cookie
              && Receive(c, i).callers[k] == if c.callers[k] == Waiting then Finished else c.callers[k]
    ensures k in Lose(c, i).callers && Lose(c, i).cookie == c.cookie
    ensures Lose(c, i).callers[k] == if c.callers[k] == Waiting then Finished else c.callers[k]
  {
  }

  /** A call that is not turned away, or whose retry has been answered, is done. */
  lemma AnsweredCalls(s: System, k: int, ttl: nat)
    requires k in s.client.callers
    ensures var done := s.client.(callers := s.client.callers[k := Finished]);
            && (s.client.callers[k] == Requesting ==> Step(s, Answered(k, false), ttl).client == done)
            && (s.client.callers[k] == Retrying ==> Step(s, RetryAnswered(k), ttl).client == done)
  {
  }

  /**
   * The whole way of a call that meets an expired access token: with a session still in time and the membership kept,
   * it is refreshed and retried, and the browser ends up with the family's next token.
   */
  lemma ExpiredCallIsRetried(s: System, k: int, members: set<Membership>, now: int, ttl: nat, family: int)
    requires Good(s, family) && !s.stranded && s.client.wire == [] && k !in s.client.callers
    requires var row := s.server.table.rows[s.client.cookie];
             now <= row.expiresAt && Membership(row.user, row.workspace) in members
    ensures var asked := Step(Step(s, Call(k), ttl), Answered(k, true), ttl);
            var u := Step(Step(asked, Serve(0, members, now), ttl), Arrive(0), ttl);
            && k in u.client.callers && u.client.callers[k] == Retrying
            && u.client.cookie == s.server.table.next && Live(u.server.table, u.client.cookie)
            && u.client.wire == [] && !u.client.pending && !u.stranded
  {
    var asked := Step(Step(s, Call(k), ttl), Answered(k, true), ttl);
    var e := Serve(0, members, now);
    assert asked.client.wire == [ToServer(s.client.cookie)] && asked.server == s.server;
    ServedRefresh(s.server, s.client.cookie, members, now, ttl, family);
    var served := Step(asked, e, ttl);
    assert served.client.wire == [Rotation(s.server.table.next)] by { hide Valid; }
    assert k in served.client.callers && served.client.callers[k] == Waiting;
    SettledCallers(served.client, 0, k);
    hide Valid, Apply;
  }

  /** A lost rotation is enough: the next refresh is taken for theft and the family dies. */
  lemma LostRotationLooksLikeTheft(s: System, i: nat, caller: int, members: set<Membership>, now: int, ttl: nat,
                                   family: int)
    requires Good(s, family) && i < |s.client.wire| && s.client.wire[i].Rotation? && caller !in s.client.callers
    ensures var lost := Step(s, Drop(i), ttl);
            var asked := Step(Step(lost, Call(caller), ttl), Answered(caller, true), ttl);
            var e := Serve(0, members, now);
            && asked.client.wire == [ToServer(asked.client.cookie)]
            && family in Step(asked, e, ttl).server.burned
  {
    var lost := Step(s, Drop(i), ttl);
    var called := Step(lost, Call(caller), ttl);
    var asked := Step(called, Answered(caller, true), ttl);
    StepKeepsGood(s, Drop(i), ttl, family);
    StepKeepsGood(lost, Call(caller), ttl, family);
    StepKeepsGood(called, Answered(caller, true), ttl, family);
    ServedRefresh(asked.server, asked.client.cookie, members, now, ttl, family);
    hide Valid, Apply;
  }

  // ---------- the module ----------

  /** The module's variable and what the browser keeps for it. */
  class ApiClient {
    var cookie: int
    var refreshPromise: bool
    var wire: seq<Flight>
    var callers: map<int, Phase>

    ghost function State(): Client
      reads this
    {
      Client(cookie, refreshPromise, wire, callers)
    }

    constructor (cookie: int)
      ensures State() == Client(cookie, false, [], map[])
    {
      this.cookie, refreshPromise, wire, callers := cookie, false, [], map[];
    }

    /** Who finds no refresh pending starts one; everyone waits for the same. */
    method GetOrStartRefresh(caller: int)
      modifies this
      ensures State() == Join(old(State()), caller)
    {
      if !refreshPromise {
        wire := wire + [ToServer(cookie)];
        refreshPromise := true;
      }
      callers := callers[caller := Waiting];
    }

    /** The continuation of `apiFetch` after its first response. */
    method FirstResponse(caller: int, unauthorized: bool)
      modifies this
      ensures State() == Answer(old(State()), caller, unauthorized)
    {
      if caller !in callers || callers[caller] != Requesting { return; }
      if unauthorized {
        GetOrStartRefresh(caller);
      } else {
        callers := callers[caller := Finished];
      }
    }

    /** `then` and `finally` of the pending refresh. */
    method SettleRefresh(ok: bool)
      modifies this
      ensures State() == Settle(old(State()), ok)
    {
      var next := if ok then Retrying else Finished;
      callers := map k | k in callers :: if callers[k] == Waiting then next else callers[k];
      refreshPromise := false;
    }
  }
}
