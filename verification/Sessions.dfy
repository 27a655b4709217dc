/**
 * Refresh-token sessions: rotation families, reuse detection, workspace switching and logout.
 * A session is keyed by its token, which stands for the token's hash; tokens and family ids are never reused.
 */
module Sessions {
  import opened Basics

  datatype Session = Session(user: int, workspace: int, family: int, expiresAt: int, revoked: bool)

  datatype Table = Table(rows: map<int, Session>, next: int)

  datatype Membership = Membership(user: int, workspace: int)

  predicate Live(t: Table, token: int) {
    token in t.rows && !t.rows[token].revoked
  }

  // ---------- operations ----------

  datatype Outcome =
    | Issued(token: int)
    | TokenInvalid
    | SessionMismatch
    | ReuseDetected
    | TokenExpired
    | Rotated(token: int)
    | AccessLost       // rotated, but the caller is no longer a member and never learns the new token
    | NotAMember
    | Done

  datatype Result = Result(table: Table, outcome: Outcome)

  function Issue(t: Table, user: int, workspace: int, now: int, ttl: nat): Result {
    Result(Table(t.rows[t.next := Session(user, workspace, t.next, now + ttl, false)], t.next + 1), Issued(t.next))
  }

  function RevokeFamily(rows: map<int, Session>, family: int): map<int, Session> {
    map k | k in rows :: if rows[k].family == family && !rows[k].revoked then rows[k].(revoked := true) else rows[k]
  }

  function RevokeUser(rows: map<int, Session>, user: int): map<int, Session> {
    map k | k in rows :: if rows[k].user == user && !rows[k].revoked then rows[k].(revoked := true) else rows[k]
  }

  /** `rotate` */
  function Rotate(t: Table, token: int, target: Option<int>, expected: Option<int>, now: int, ttl: nat): Result {
    if token !in t.rows then Result(t, TokenInvalid)
    else
      var existing := t.rows[token];
      if expected.Some? && existing.user != expected.value then Result(t, SessionMismatch)
      else if existing.revoked then Result(t.(rows := RevokeFamily(t.rows, existing.family)), ReuseDetected)
      else if existing.expiresAt < now then Result(t, TokenExpired)
      else
        var workspace := if target.Some? then target.value else existing.workspace;
        var successor := Session(existing.user, workspace, existing.family, now + ttl, false);
        Result(Table(t.rows[token := existing.(revoked := true)][t.next := successor], t.next + 1), Rotated(t.next))
  }

  /** `AuthService.refresh`: the membership is looked up after the rotation. */
  function Refresh(t: Table, token: int, members: set<Membership>, now: int, ttl: nat): Result {
    var r := Rotate(t, token, None, None, now, ttl);
    if !r.outcome.Rotated? then r
    else
      var s := r.table.rows[r.outcome.token];
      if Membership(s.user, s.workspace) in members then r else r.(outcome := AccessLost)
  }

  /** `AuthService.switchWorkspace`: the membership is looked up first. */
  function Switch(t: Table, user: int, target: int, token: int, members: set<Membership>, now: int, ttl: nat): Result {
    if Membership(user, target) !in members then Result(t, NotAMember)
    else Rotate(t, token, Some(target), Some(user), now, ttl)
  }

  function Logout(t: Table, token: int): Result {
    Result(if Live(t, token) then t.(rows := t.rows[token := t.rows[token].(revoked := true)]) else t, Done)
  }

  function LogoutAll(t: Table, user: int): Result {
    Result(t.(rows := RevokeUser(t.rows, user)), Done)
  }

  // ---------- runs ----------

  datatype Event =
    | DoIssue(user: int, workspace: int, now: int)
    | DoRefresh(token: int, members: set<Membership>, now: int)
    | DoSwitch(user: int, target: int, token: int, members: set<Membership>, now: int)
    | DoLogout(token: int)
    | DoLogoutAll(user: int)

  function Apply(t: Table, e: Event, ttl: nat): Result {
    match e
    case DoIssue(user, workspace, now) => Issue(t, user, workspace, now, ttl)
    case DoRefresh(token, members, now) => Refresh(t, token, members, now, ttl)
    case DoSwitch(user, target, token, members, now) => Switch(t, user, target, token, members, now, ttl)
    case DoLogout(token) => Logout(t, token)
    case DoLogoutAll(user) => LogoutAll(t, user)
  }

  /**
   * The table with what has happened: `home` is the workspace of a family's last successful issue or switch,
   * `burned` holds the families in which reuse was detected, `minted` is when each token was given out.
   */
  datatype History = History(table: Table, home: map<int, int>, burned: set<int>, minted: map<int, int>)

  lemma OnlyDatedEventsMint(t: Table, e: Event, ttl: nat)
    ensures Apply(t, e, ttl).table.next != t.next ==> e.DoIssue? || e.DoRefresh? || e.DoSwitch?
  {
  }

  function Step(h: History, e: Event, ttl: nat): History {
    OnlyDatedEventsMint(h.table, e, ttl);
    var r := Apply(h.table, e, ttl);
    var home :=
      if r.outcome.Issued? then h.home[h.table.next := e.workspace]
      else if e.DoSwitch? && r.outcome.Rotated? then h.home[h.table.rows[e.token].family := e.target]
      else h.home;
    var burned := if r.outcome.ReuseDetected? then h.burned + {h.table.rows[e.token].family} else h.burned;
    var minted := if r.table.next != h.table.next then h.minted[h.table.next := e.now] else h.minted;
    History(r.table, home, burned, minted)
  }

  function Run(h: History, es: seq<Event>, ttl: nat): History
    decreases es
  {
    if es == [] then h else Run(Step(h, es[0], ttl), es[1..], ttl)
  }

  const NO_SESSIONS: History := History(Table(map[], 0), map[], {}, map[])

  // ---------- the family invariant ----------

  ghost predicate IdsIssued(t: Table) {
    forall k :: k in t.rows ==> k < t.next && t.rows[k].family < t.next
  }

  ghost predicate OneUserPerFamily(t: Table) {
    forall j, k :: j in t.rows && k in t.rows && t.rows[j].family == t.rows[k].family ==>
      t.rows[j].user == t.rows[k].user
  }

  ghost predicate OneLivePerFamily(t: Table) {
    forall j, k :: Live(t, j) && Live(t, k) && t.rows[j].family == t.rows[k].family ==> j == k
  }

  ghost predicate AtHome(h: History) {
    forall k :: k in h.table.rows ==>
      h.table.rows[k].family in h.home
      && (Live(h.table, k) ==> h.table.rows[k].workspace == h.home[h.table.rows[k].family])
  }

  ghost predicate BurnedIsDead(h: History) {
    && (forall k :: Live(h.table, k) ==> h.table.rows[k].family !in h.burned)
    && (forall f :: f in h.burned ==> f < h.table.next)
  }

  ghost predicate Valid(h: History) {
    IdsIssued(h.table) && OneUserPerFamily(h.table) && OneLivePerFamily(h.table) && AtHome(h) && BurnedIsDead(h)
  }

  /** Only the presented token's family, or the user's own families, or a brand-new one, can change. */
  lemma OtherFamiliesUntouched(t: Table, e: Event, ttl: nat, k: int)
    requires IdsIssued(t) && k in t.rows
    requires e.DoLogoutAll? ==> t.rows[k].user != e.user
    requires (e.DoRefresh? || e.DoSwitch? || e.DoLogout?) && e.token in t.rows ==>
               t.rows[k].family != t.rows[e.token].family
    ensures k in Apply(t, e, ttl).table.rows && Apply(t, e, ttl).table.rows[k] == t.rows[k]
  {
  }

  /** What a row keeps for ever: its user, workspace and family; and once revoked it stays revoked. */
  ghost predicate Descends(t: Table, u: Table) {
    && t.next <= u.next
    && forall k :: k in t.rows ==>
         && k in u.rows && u.rows[k].user == t.rows[k].user && u.rows[k].family == t.rows[k].family
         && u.rows[k].workspace == t.rows[k].workspace && (t.rows[k].revoked ==> u.rows[k].revoked)
  }

  lemma ApplyDescends(t: Table, e: Event, ttl: nat)
    requires IdsIssued(t)
    ensures Descends(t, Apply(t, e, ttl).table) && IdsIssued(Apply(t, e, ttl).table)
  {
  }

  /** A new row is the issue of a new family, or the only live successor in the family of a live token. */
  lemma ApplyGrows(t: Table, e: Event, ttl: nat)
    requires IdsIssued(t)
    ensures var r := Apply(t, e, ttl);
            forall k :: k in r.table.rows && k !in t.rows ==>
              && k == t.next
              && (if e.DoIssue? then r.table.rows[k].family == t.next
                  else (e.DoRefresh? || e.DoSwitch?) && Live(t, e.token) && !Live(r.table, e.token)
                       && r.table.rows[k].family == t.rows[e.token].family
                       && r.table.rows[k].user == t.rows[e.token].user)
  {
  }

  lemma StepKeepsOneLive(h: History, e: Event, ttl: nat)
    requires Valid(h)
    ensures OneLivePerFamily(Step(h, e, ttl).table) && OneUserPerFamily(Step(h, e, ttl).table)
  {
    var t, u := h.table, Apply(h.table, e, ttl).table;
    ApplyDescends(t, e, ttl);
    ApplyGrows(t, e, ttl);
    hide Apply;
    forall j, k | Live(u, j) && Live(u, k) && u.rows[j].family == u.rows[k].family ensures j == k {
      if j in t.rows && k in t.rows {
        assert Live(t, j) && Live(t, k);
      }
    }
  }

  lemma StepKeepsHome(h: History, e: Event, ttl: nat)
    requires Valid(h)
    ensures AtHome(Step(h, e, ttl))
  {
    hide BurnedIsDead;
  }

  lemma ReuseKillsFamily(t: Table, e: Event, ttl: nat)
    requires Apply(t, e, ttl).outcome.ReuseDetected?
    ensures (e.DoRefresh? || e.DoSwitch?) && e.token in t.rows
    ensures forall k :: Live(Apply(t, e, ttl).table, k) ==> Live(t, k) && t.rows[k].family != t.rows[e.token].family
  {
  }

  lemma StepKeepsBurned(h: History, e: Event, ttl: nat)
    requires Valid(h)
    ensures BurnedIsDead(Step(h, e, ttl))
  {
    var t, u := h.table, Apply(h.table, e, ttl).table;
    ApplyDescends(t, e, ttl);
    ApplyGrows(t, e, ttl);
    if Apply(t, e, ttl).outcome.ReuseDetected? { ReuseKillsFamily(t, e, ttl); }
    hide Apply, AtHome, OneLivePerFamily, OneUserPerFamily;
    forall k | Live(u, k) ensures u.rows[k].family !in h.burned {
      if k in t.rows { assert Live(t, k); }
    }
  }

  lemma StepKeepsValid(h: History, e: Event, ttl: nat)
    requires Valid(h)
    ensures Valid(Step(h, e, ttl)) && Descends(h.table, Step(h, e, ttl).table) && h.burned <= Step(h, e, ttl).burned
  {
    ApplyDescends(h.table, e, ttl);
    StepKeepsOneLive(h, e, ttl);
    StepKeepsHome(h, e, ttl);
    StepKeepsBurned(h, e, ttl);
    hide Apply, AtHome, OneLivePerFamily, OneUserPerFamily, BurnedIsDead, Descends, IdsIssued;
  }

  lemma DescendsTransitive(a: Table, b: Table, c: Table)
    requires Descends(a, b) && Descends(b, c)
    ensures Descends(a, c)
  {
  }

  /**
   * At every moment of every run each family has one user and at most one live session, which carries the workspace
   * of the family's last successful issue or switch; a family in which reuse was detected has none, now or later.
   */
  lemma {:induction false} RunKeepsValid(h: History, es: seq<Event>, ttl: nat)
    requires Valid(h)
    ensures var u := Run(h, es, ttl);
            Valid(u) && Descends(h.table, u.table) && h.burned <= u.burned
    decreases es
  {
    if es == [] {
    } else {
      var m := Step(h, es[0], ttl);
      StepKeepsValid(h, es[0], ttl);
      RunKeepsValid(m, es[1..], ttl);
      hide Step, Valid, Descends;
      DescendsTransitive(h.table, m.table, Run(h, es, ttl).table);
    }
  }

  // ---------- what each call does ----------

  /** An issue adds the new family's one session and changes no other row. */
  lemma IssueMeaning(t: Table, user: int, workspace: int, now: int, ttl: nat)
    ensures var r := Issue(t, user, workspace, now, ttl);
            && r.outcome == Issued(t.next) && r.table.next == t.next + 1
            && r.table.rows == t.rows[t.next := Session(user, workspace, t.next, now + ttl, false)]
  {
  }

  /** A rotation ends the presented session and adds its successor, in the target or the old workspace. */
  lemma RotationMeaning(t: Table, token: int, target: Option<int>, expected: Option<int>, now: int, ttl: nat)
    requires Rotate(t, token, target, expected, now, ttl).outcome.Rotated?
    ensures var r := Rotate(t, token, target, expected, now, ttl);
            && token in t.rows && r.outcome == Rotated(t.next) && r.table.next == t.next + 1
            && var s := t.rows[token];
               var workspace := if target.Some? then target.value else s.workspace;
               r.table.rows == t.rows[token := s.(revoked := true)][
                 t.next := Session(s.user, workspace, s.family, now + ttl, false)]
  {
  }

  /** The membership decides over a refresh after the rotation, which stands, and over a switch before it. */
  lemma MembershipMeaning(t: Table, user: int, target: int, token: int, members: set<Membership>, now: int, ttl: nat)
    ensures var plain, r := Rotate(t, token, None, None, now, ttl), Refresh(t, token, members, now, ttl);
            && r.table == plain.table
            && (if plain.outcome.Rotated? && Membership(t.rows[token].user, t.rows[token].workspace) !in members
                then r.outcome == AccessLost else r.outcome == plain.outcome)
    ensures Switch(t, user, target, token, members, now, ttl) ==
              if Membership(user, target) in members then Rotate(t, token, Some(target), Some(user), now, ttl)
              else Result(t, NotAMember)
  {
    hide RevokeFamily;
  }

  /** Logging out ends exactly the presented session. */
  lemma LogoutIsExact(t: Table, token: int, k: int)
    ensures Live(Logout(t, token).table, k) <==> Live(t, k) && k != token
    ensures k in t.rows && k != token ==>
              k in Logout(t, token).table.rows && Logout(t, token).table.rows[k] == t.rows[k]
  {
  }

  // ---------- what follows ----------

  /** Presenting a spent token with the right identity kills its family for good: no later run revives it. */
  lemma ReuseIsFinal(h: History, e: Event, es: seq<Event>, ttl: nat)
    requires Valid(h) && (e.DoRefresh? || e.DoSwitch?) && Apply(h.table, e, ttl).outcome.ReuseDetected?
    ensures var u := Run(Step(h, e, ttl), es, ttl).table;
            forall k :: k in u.rows && u.rows[k].family == h.table.rows[e.token].family ==> u.rows[k].revoked
  {
    ReuseKillsFamily(h.table, e, ttl);
    StepKeepsValid(h, e, ttl);
    RunKeepsValid(Step(h, e, ttl), es, ttl);
    hide Apply, AtHome, OneLivePerFamily, OneUserPerFamily, IdsIssued;
    var u := Run(Step(h, e, ttl), es, ttl);
    assert h.table.rows[e.token].family in u.burned;
    forall k | k in u.table.rows && u.table.rows[k].family == h.table.rows[e.token].family
      ensures u.table.rows[k].revoked
    {
      assert u.table.rows[k].family in u.burned;
    }
  }

  /**
   * If two parties both use one token to refresh, whatever happens in between, then after the second use no session
   * of the family is live, and none ever will be.
   */
  lemma DoubleUseKillsFamily(h: History, token: int, m1: set<Membership>, t1: int, mid: seq<Event>,
                             m2: set<Membership>, t2: int, after: seq<Event>, ttl: nat)
    requires Valid(h) && Rotate(h.table, token, None, None, t1, ttl).outcome.Rotated?
    ensures var once := Step(h, DoRefresh(token, m1, t1), ttl);
            var twice := Step(Run(once, mid, ttl), DoRefresh(token, m2, t2), ttl);
            var u := Run(twice, after, ttl).table;
            forall k :: k in u.rows && u.rows[k].family == h.table.rows[token].family ==> u.rows[k].revoked
  {
    var e1, e2 := DoRefresh(token, m1, t1), DoRefresh(token, m2, t2);
    var once := Step(h, e1, ttl);
    assert once.table.rows[token].revoked by { hide Valid; }
    StepKeepsValid(h, e1, ttl);
    RunKeepsValid(once, mid, ttl);
    var m := Run(once, mid, ttl);
    assert m.table.rows[token].revoked && m.table.rows[token].family == h.table.rows[token].family;
    assert Apply(m.table, e2, ttl).outcome.ReuseDetected?;
    ReuseIsFinal(m, e2, after, ttl);
  }

  // ---------- expiry ----------

  /** Every session expires a fixed time after its token was given out. */
  ghost predicate ExpiresOnTime(h: History, ttl: nat) {
    forall k :: k in h.table.rows ==> k in h.minted && h.table.rows[k].expiresAt == h.minted[k] + ttl
  }

  lemma StepKeepsExpiry(h: History, e: Event, ttl: nat)
    requires IdsIssued(h.table) && ExpiresOnTime(h, ttl)
    ensures ExpiresOnTime(Step(h, e, ttl), ttl)
  {
  }

  lemma {:induction false} RunKeepsExpiry(h: History, es: seq<Event>, ttl: nat)
    requires Valid(h) && ExpiresOnTime(h, ttl)
    ensures ExpiresOnTime(Run(h, es, ttl), ttl)
    decreases es
  {
    if es == [] {
    } else {
      StepKeepsExpiry(h, es[0], ttl);
      StepKeepsValid(h, es[0], ttl);
      RunKeepsExpiry(Step(h, es[0], ttl), es[1..], ttl);
    }
  }

  /**
   * What a rotation answers, and that the four refusals but one change nothing: an unknown token is invalid, someone
   * else's is a mismatch, a spent one is reuse, and one past its time is expired.
   */
  lemma RotationOutcome(t: Table, token: int, target: Option<int>, expected: Option<int>, now: int, ttl: nat)
    ensures var r := Rotate(t, token, target, expected, now, ttl);
            var mine := token in t.rows && (expected.None? || expected == Some(t.rows[token].user));
            && (r.outcome == TokenInvalid <==> token !in t.rows)
            && (r.outcome == SessionMismatch <==> token in t.rows && !mine)
            && (r.outcome == ReuseDetected <==> mine && t.rows[token].revoked)
            && (r.outcome == TokenExpired <==> mine && !t.rows[token].revoked && t.rows[token].expiresAt < now)
            && (r.outcome.Rotated? <==> mine && !t.rows[token].revoked && now <= t.rows[token].expiresAt)
            && (r.outcome.Rotated? || r.outcome == ReuseDetected || r.table == t)
  {
  }

  /**
   * After any run, a token given out at time m is refreshed at time n by a current member exactly if it is still live
   * and n <= m + ttl; a live one presented later is refused as expired and nothing changes.
   */
  lemma RefreshedExactlyInTime(es: seq<Event>, token: int, members: set<Membership>, now: int, ttl: nat)
    requires token in Run(NO_SESSIONS, es, ttl).table.rows
    ensures var h := Run(NO_SESSIONS, es, ttl);
            var s := h.table.rows[token];
            var r := Refresh(h.table, token, members, now, ttl);
            && token in h.minted
            && (r.outcome.Rotated? <==>
                  Live(h.table, token) && now <= h.minted[token] + ttl && Membership(s.user, s.workspace) in members)
            && (r.outcome == TokenExpired <==> Live(h.table, token) && h.minted[token] + ttl < now)
            && (r.outcome == TokenExpired ==> r.table == h.table)
  {
    RunKeepsExpiry(NO_SESSIONS, es, ttl);
    RotationOutcome(Run(NO_SESSIONS, es, ttl).table, token, None, None, now, ttl);
  }

  /** The rotation names the same user and family, and the workspace the family was last issued or switched for. */
  lemma RefreshStaysAtHome(h: History, token: int, members: set<Membership>, now: int, ttl: nat)
    requires Valid(h) && Refresh(h.table, token, members, now, ttl).outcome.Rotated?
    ensures var r := Refresh(h.table, token, members, now, ttl);
            var old', new' := h.table.rows[token], r.table.rows[r.outcome.token];
            && new'.workspace == h.home[old'.family] && new'.user == old'.user && new'.family == old'.family
            && Membership(new'.user, new'.workspace) in members
  {
    assert Live(h.table, token);
  }

  /** The caller's token is spent but its family lives on. */
  ghost predicate SpentInLiveFamily(t: Table, user: int, token: int) {
    && token in t.rows && t.rows[token].user == user && t.rows[token].revoked
    && exists k :: Live(t, k) && t.rows[k].family == t.rows[token].family
  }

  /**
   * A rejected switch changes no row, with one exception: a member of the target workspace who presents a spent
   * token of a family that still has a live session loses that session.
   */
  lemma RejectedSwitchChanges(t: Table, user: int, target: int, token: int, members: set<Membership>, now: int,
                              ttl: nat)
    requires !Switch(t, user, target, token, members, now, ttl).outcome.Rotated?
    ensures Switch(t, user, target, token, members, now, ttl).table == t
       <==> !(Membership(user, target) in members && SpentInLiveFamily(t, user, token))
  {
    if Membership(user, target) in members && token in t.rows && t.rows[token].user == user && t.rows[token].revoked {
      var rows := RevokeFamily(t.rows, t.rows[token].family);
      if SpentInLiveFamily(t, user, token) {
        var k :| Live(t, k) && t.rows[k].family == t.rows[token].family;
        assert rows[k] != t.rows[k];
      } else {
        forall k | k in t.rows ensures rows[k] == t.rows[k] {
          assert Live(t, k) ==> t.rows[k].family != t.rows[token].family;
        }
        assert rows == t.rows;
      }
    }
  }

  /** Such a state is reached by one refresh: a switch with the token before it is rejected and ends the session. */
  lemma RejectedSwitchEndsSession(user: int, home: int, target: int, now: int, ttl: nat)
    ensures var es := [DoIssue(user, home, now), DoRefresh(0, {Membership(user, home)}, now)];
            var spent := Run(NO_SESSIONS, es, ttl).table;
            var r := Switch(spent, user, target, 0, {Membership(user, target)}, now, ttl);
            r.outcome == ReuseDetected && Live(spent, 1) && !Live(r.table, 1)
  {
    var e, f := DoIssue(user, home, now), DoRefresh(0, {Membership(user, home)}, now);
    var h := Step(Step(NO_SESSIONS, e, ttl), f, ttl);
    assert [e, f][1..] == [f] && [f][1..] == [];
    assert Run(NO_SESSIONS, [e, f], ttl) == Run(Step(NO_SESSIONS, e, ttl), [f], ttl) == Run(h, [], ttl);
  }

  /** A switch never touches another user's sessions. */
  lemma SwitchIsOwn(t: Table, user: int, target: int, token: int, members: set<Membership>, now: int, ttl: nat, k: int)
    requires IdsIssued(t) && OneUserPerFamily(t) && k in t.rows && t.rows[k].user != user
    ensures k in Switch(t, user, target, token, members, now, ttl).table.rows
    ensures Switch(t, user, target, token, members, now, ttl).table.rows[k] == t.rows[k]
  {
  }

  /** After logging out everywhere the user has no live session until the next issue; nobody else loses one. */
  lemma LogoutAllIsExact(t: Table, user: int, k: int)
    ensures Live(LogoutAll(t, user).table, k) <==> Live(t, k) && t.rows[k].user != user
  {
  }

  // ---------- the services ----------

  class SessionService {
    var rows: map<int, Session>
    var next: int
    const ttl: nat

    ghost function Rows(): Table
      reads this
    {
      Table(rows, next)
    }

    constructor (ttl: nat)
      ensures Rows() == NO_SESSIONS.table && this.ttl == ttl
    {
      this.ttl := ttl;
      rows, next := map[], 0;
    }

    method IssueSession(user: int, workspace: int, now: int) returns (token: int)
      modifies this
      ensures Result(Rows(), Issued(token)) == Issue(old(Rows()), user, workspace, now, ttl)
    {
      token := next;
      rows := rows[token := Session(user, workspace, token, now + ttl, false)];
      next := next + 1;
    }

    method RotateToken(token: int, target: Option<int>, expected: Option<int>, now: int) returns (outcome: Outcome)
      modifies this
      ensures Result(Rows(), outcome) == Rotate(old(Rows()), token, target, expected, now, ttl)
    {
      if token !in rows { return TokenInvalid; }
      var existing := rows[token];
      if expected.Some? && existing.user != expected.value { return SessionMismatch; }
      if existing.revoked {
        rows := map k | k in rows ::
          if rows[k].family == existing.family && !rows[k].revoked then rows[k].(revoked := true) else rows[k];
        return ReuseDetected;
      }
      if existing.expiresAt < now { return TokenExpired; }
      rows := rows[token := existing.(revoked := true)];
      var workspace := if target.Some? then target.value else existing.workspace;
      rows := rows[next := Session(existing.user, workspace, existing.family, now + ttl, false)];
      outcome := Rotated(next);
      next := next + 1;
    }

    method Revoke(token: int)
      modifies this
      ensures Rows() == Logout(old(Rows()), token).table
    {
      if token !in rows || rows[token].revoked { return; }
      rows := rows[token := rows[token].(revoked := true)];
    }

    method RevokeAllForUser(user: int)
      modifies this
      ensures Rows() == LogoutAll(old(Rows()), user).table
    {
      rows := map k | k in rows ::
        if rows[k].user == user && !rows[k].revoked then rows[k].(revoked := true) else rows[k];
    }

    method RefreshSession(token: int, members: set<Membership>, now: int) returns (outcome: Outcome)
      modifies this
      ensures Result(Rows(), outcome) == Refresh(old(Rows()), token, members, now, ttl)
    {
      outcome := RotateToken(token, None, None, now);
      if !outcome.Rotated? { return; }
      var session := rows[outcome.token];
      if Membership(session.user, session.workspace) !in members { outcome := AccessLost; }
    }

    method SwitchWorkspace(user: int, target: int, token: int, members: set<Membership>, now: int)
      returns (outcome: Outcome)
      modifies this
      ensures Result(Rows(), outcome) == Switch(old(Rows()), user, target, token, members, now, ttl)
    {
      if Membership(user, target) !in members { return NotAMember; }
      outcome := RotateToken(token, Some(target), Some(user), now);
    }
  }
}
