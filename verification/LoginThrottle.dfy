/**
 * The login throttle: two counters per attempt, read before the password is checked and counted up or deleted
 * afterwards, with attempts interleaved command by command.
 */
module LoginThrottle {
  import opened Basics
  import opened Redis

  /** The Redis keys `login_attempts:email:...` and `login_attempts:ip:...`. */
  datatype Key = Email(email: string) | Ip(address: string)

  type Store = map<Key, Counter>

  function At(store: Store, k: Key): Counter { if k in store then store[k] else Absent }

  /** The next command of an attempt; `Verify` is the password check between isLocked and the bookkeeping. */
  datatype Pc =
    | GetEmail | GetIp | Verify
    | IncrEmail | ExpireEmail | IncrIp | ExpireIp
    | DelEmail | DelIp
    | Over

  datatype Attempt = Attempt(email: string, ip: Option<string>, pc: Pc)

  datatype Config = Config(maxAttempts: nat, windowMs: nat, inFlight: nat)

  datatype State = State(now: int, store: Store, attempts: map<nat, Attempt>)

  datatype Event =
    | Begin(id: nat, email: string, ip: Option<string>)
    | Proceed(id: nat, passwordOk: bool)
    | Tick(ms: nat)

  predicate Locked(cfg: Config, c: Counter) { c.Present? && c.count >= cfg.maxAttempts }

  /** One command of one attempt. */
  function Command(cfg: Config, now: int, store: Store, a: Attempt, passwordOk: bool): (Store, Attempt) {
    var email := Key.Email(a.email);
    var ip := Key.Ip(if a.ip.Some? then a.ip.value else "");
    match a.pc
    case GetEmail =>
      (store, a.(pc := if Locked(cfg, At(store, email)) then Over else if a.ip.Some? then GetIp else Verify))
    case GetIp => (store, a.(pc := if Locked(cfg, At(store, ip)) then Over else Verify))
    case Verify => (store, a.(pc := if passwordOk then DelEmail else IncrEmail))
    case IncrEmail =>
      var c := Incr(At(store, email));
      (store[email := c], a.(pc := if c.count == 1 then ExpireEmail else if a.ip.Some? then IncrIp else Over))
    case ExpireEmail =>
      (store[email := PExpire(At(store, email), now, cfg.windowMs)], a.(pc := if a.ip.Some? then IncrIp else Over))
    case IncrIp =>
      var c := Incr(At(store, ip));
      (store[ip := c], a.(pc := if c.count == 1 then ExpireIp else Over))
    case ExpireIp => (store[ip := PExpire(At(store, ip), now, cfg.windowMs)], a.(pc := Over))
    case DelEmail => (store[email := Absent], a.(pc := if a.ip.Some? then DelIp else Over))
    case DelIp => (store[ip := Absent], a.(pc := Over))
    case Over => (store, a)
  }

  function Running(s: State): set<nat> { set id | id in s.attempts && s.attempts[id].pc != Over }

  /** A new attempt starts only while fewer than `inFlight` are under way. */
  function Step(cfg: Config, s: State, e: Event): State {
    match e
    case Begin(id, email, ip) =>
      if id in s.attempts || |Running(s)| >= cfg.inFlight then s
      else s.(attempts := s.attempts[id := Attempt(email, ip, GetEmail)])
    case Proceed(id, ok) =>
      if id !in s.attempts then s
      else
        var (store, a) := Command(cfg, s.now, s.store, s.attempts[id], ok);
        s.(store := store, attempts := s.attempts[id := a])
    case Tick(ms) =>
      s.(now := s.now + ms, store := map k | k in s.store :: Elapse(s.store[k], s.now + ms))
  }

  function Run(cfg: Config, s: State, es: seq<Event>): State
    decreases es
  {
    if es == [] then s else Run(cfg, Step(cfg, s, es[0]), es[1..])
  }

  lemma {:induction false} RunConcat(cfg: Config, s: State, a: seq<Event>, b: seq<Event>)
    ensures Run(cfg, s, a + b) == Run(cfg, Run(cfg, s, a), b)
    decreases a
  {
    if a == [] {
      assert a + b == b;
    } else {
      assert (a + b)[0] == a[0] && (a + b)[1..] == a[1..] + b;
      RunConcat(cfg, Step(cfg, s, a[0]), a[1..], b);
    }
  }

  lemma OneStep(cfg: Config, s: State, e: Event)
    ensures Run(cfg, s, [e]) == Step(cfg, s, e)
  {
    assert Run(cfg, s, [e]) == Run(cfg, Step(cfg, s, e), []);
  }

  // ---------- an attempt by itself ----------

  /** One failure more on this key; the window starts with the first. */
  function Counted(cfg: Config, now: int, store: Store, k: Key): Store {
    var c := Incr(At(store, k));
    store[k := if c.count == 1 then PExpire(c, now, cfg.windowMs) else c]
  }

  predicate IsLockedFor(cfg: Config, store: Store, email: string, ip: Option<string>) {
    Locked(cfg, At(store, Email(email))) || (ip.Some? && Locked(cfg, At(store, Ip(ip.value))))
  }

  function Failed(cfg: Config, now: int, store: Store, email: string, ip: Option<string>): Store {
    var counted := Counted(cfg, now, store, Email(email));
    if ip.Some? then Counted(cfg, now, counted, Ip(ip.value)) else counted
  }

  function Cleared(store: Store, email: string, ip: Option<string>): Store {
    var cleared := store[Email(email) := Absent];
    if ip.Some? then cleared[Ip(ip.value) := Absent] else cleared
  }

  /** What a whole login does to the counters if nothing comes between its commands. */
  function AfterLogin(cfg: Config, now: int, store: Store, email: string, ip: Option<string>, ok: bool): Store {
    if IsLockedFor(cfg, store, email, ip) then store
    else if ok then Cleared(store, email, ip)
    else Failed(cfg, now, store, email, ip)
  }

  /** The first `n` commands of an attempt, uninterrupted. */
  function Commands(cfg: Config, now: int, store: Store, a: Attempt, ok: bool, n: nat): (Store, Attempt)
    decreases n
  {
    if n == 0 then (store, a)
    else
      var (u, b) := Command(cfg, now, store, a, ok);
      Commands(cfg, now, u, b, ok, n - 1)
  }

  lemma {:induction false} CommandsSplit(cfg: Config, now: int, store: Store, a: Attempt, ok: bool, m: nat, n: nat)
    ensures var (u, b) := Commands(cfg, now, store, a, ok, m);
            Commands(cfg, now, store, a, ok, m + n) == Commands(cfg, now, u, b, ok, n)
    decreases m
  {
    hide Command;
    if m == 0 {
    } else {
      var (u, b) := Command(cfg, now, store, a, ok);
      CommandsSplit(cfg, now, u, b, ok, m - 1, n);
    }
  }

  lemma {:induction false} OverStaysOver(cfg: Config, now: int, store: Store, a: Attempt, ok: bool, n: nat)
    requires a.pc == Over
    ensures Commands(cfg, now, store, a, ok, n) == (store, a)
  {
    if n == 0 {
    } else {
      OverStaysOver(cfg, now, store, a, ok, n - 1);
    }
  }

  /** The check: two commands at most. */
  lemma CheckCommands(cfg: Config, now: int, store: Store, email: string, ip: Option<string>, ok: bool)
    ensures Commands(cfg, now, store, Attempt(email, ip, GetEmail), ok, 2) ==
              if IsLockedFor(cfg, store, email, ip) then (store, Attempt(email, ip, Over))
              else if ip.Some? then (store, Attempt(email, ip, Verify))
              else Command(cfg, now, store, Attempt(email, ip, Verify), ok)
  {
    var a := Attempt(email, ip, GetEmail);
    var (u, b) := Command(cfg, now, store, a, ok);
    assert Commands(cfg, now, store, a, ok, 2) == Commands(cfg, now, u, b, ok, 1);
    assert Commands(cfg, now, u, b, ok, 1) == Command(cfg, now, u, b, ok);
  }

  /** The bookkeeping of a failed attempt: four commands at most. */
  lemma FailureCommands(cfg: Config, now: int, store: Store, email: string, ip: Option<string>)
    ensures Commands(cfg, now, store, Attempt(email, ip, IncrEmail), false, 4) ==
              (Failed(cfg, now, store, email, ip), Attempt(email, ip, Over))
  {
    var a := Attempt(email, ip, IncrEmail);
    var counted := Counted(cfg, now, store, Email(email));
    var next := Attempt(email, ip, if ip.Some? then IncrIp else Over);
    var (u, b) := Command(cfg, now, store, a, false);
    var n := if b.pc == ExpireEmail then 2 else 1;
    assert Commands(cfg, now, store, a, false, 1) == (u, b) by {
      assert Commands(cfg, now, u, b, false, 0) == (u, b);
    }
    assert Commands(cfg, now, store, a, false, n) == (counted, next) by {
      if n == 2 {
        var (v, d) := Command(cfg, now, u, b, false);
        assert v == counted && d == next;
        assert Commands(cfg, now, u, b, false, 1) == Commands(cfg, now, v, d, false, 0);
      } else {
        assert u == counted && b == next;
      }
    }
    CommandsSplit(cfg, now, store, a, false, n, 4 - n);
    IpCommands(cfg, now, counted, next, 4 - n);
  }

  lemma IpCommands(cfg: Config, now: int, store: Store, a: Attempt, n: nat)
    requires n >= 2 && (if a.ip.Some? then a.pc == IncrIp else a.pc == Over)
    ensures Commands(cfg, now, store, a, false, n) ==
              (if a.ip.Some? then Counted(cfg, now, store, Ip(a.ip.value)) else store, a.(pc := Over))
  {
    if a.ip.None? {
      OverStaysOver(cfg, now, store, a, false, n);
    } else {
      var (u, b) := Command(cfg, now, store, a, false);
      if b.pc == ExpireIp {
        var (v, d) := Command(cfg, now, u, b, false);
        assert v == Counted(cfg, now, store, Ip(a.ip.value));
        OverStaysOver(cfg, now, v, d, false, n - 2);
        assert Commands(cfg, now, u, b, false, n - 1) == Commands(cfg, now, v, d, false, n - 2);
      } else {
        OverStaysOver(cfg, now, u, b, false, n - 1);
      }
    }
  }

  lemma SuccessCommands(cfg: Config, now: int, store: Store, email: string, ip: Option<string>)
    ensures Commands(cfg, now, store, Attempt(email, ip, DelEmail), true, 4) ==
              (Cleared(store, email, ip), Attempt(email, ip, Over))
  {
    var a := Attempt(email, ip, DelEmail);
    var (u, b) := Command(cfg, now, store, a, true);
    if ip.None? {
      OverStaysOver(cfg, now, u, b, true, 3);
    } else {
      var (v, d) := Command(cfg, now, u, b, true);
      OverStaysOver(cfg, now, v, d, true, 2);
      assert Commands(cfg, now, u, b, true, 3) == Commands(cfg, now, v, d, true, 2);
    }
  }

  /** Seven commands see every attempt through. */
  lemma LoginCommands(cfg: Config, now: int, store: Store, email: string, ip: Option<string>, ok: bool)
    ensures Commands(cfg, now, store, Attempt(email, ip, GetEmail), ok, 7) ==
              (AfterLogin(cfg, now, store, email, ip, ok), Attempt(email, ip, Over))
  {
    var a := Attempt(email, ip, GetEmail);
    CheckCommands(cfg, now, store, email, ip, ok);
    CommandsSplit(cfg, now, store, a, ok, 2, 5);
    if IsLockedFor(cfg, store, email, ip) {
      OverStaysOver(cfg, now, store, a.(pc := Over), ok, 5);
    } else {
      var verified := a.(pc := if ok then DelEmail else IncrEmail);
      assert Command(cfg, now, store, a.(pc := Verify), ok) == (store, verified);
      assert Commands(cfg, now, store, verified, ok, 4) ==
        (AfterLogin(cfg, now, store, email, ip, ok), a.(pc := Over)) by {
        if ok { SuccessCommands(cfg, now, store, email, ip); } else { FailureCommands(cfg, now, store, email, ip); }
      }
      hide Command, AfterLogin, Commands;
      LastCommands(cfg, now, store, a, verified, ok);
    }
  }

  /** With an address the password is verified after two commands, without one it already has been. */
  lemma LastCommands(cfg: Config, now: int, store: Store, a: Attempt, verified: Attempt, ok: bool)
    requires Command(cfg, now, store, a.(pc := Verify), ok) == (store, verified)
    requires Commands(cfg, now, store, verified, ok, 4).1.pc == Over
    ensures Commands(cfg, now, store, a.(pc := Verify), ok, 5) == Commands(cfg, now, store, verified, ok, 4)
    ensures Commands(cfg, now, store, verified, ok, 5) == Commands(cfg, now, store, verified, ok, 4)
  {
    hide Command;
    var (u, b) := Commands(cfg, now, store, verified, ok, 4);
    CommandsSplit(cfg, now, store, verified, ok, 4, 1);
    OverStaysOver(cfg, now, u, b, ok, 1);
  }

  function Proceeds(id: nat, ok: bool, n: nat): seq<Event> {
    if n == 0 then [] else [Proceed(id, ok)] + Proceeds(id, ok, n - 1)
  }

  lemma {:induction false} ProceedsAreCommands(cfg: Config, s: State, id: nat, ok: bool, n: nat)
    requires id in s.attempts
    ensures var (u, b) := Commands(cfg, s.now, s.store, s.attempts[id], ok, n);
            Run(cfg, s, Proceeds(id, ok, n)) == s.(store := u, attempts := s.attempts[id := b])
    decreases n
  {
    hide Command;
    if n == 0 {
      assert Run(cfg, s, []) == s && s.attempts == s.attempts[id := s.attempts[id]];
    } else {
      var t := Step(cfg, s, Proceed(id, ok));
      assert Proceeds(id, ok, n)[1..] == Proceeds(id, ok, n - 1);
      ProceedsAreCommands(cfg, t, id, ok, n - 1);
      var b := Commands(cfg, s.now, s.store, s.attempts[id], ok, n).1;
      assert t.attempts[id := b] == s.attempts[id := b];
    }
  }

  /** A login whose commands nothing interrupts. */
  function LoginTrace(id: nat, email: string, ip: Option<string>, ok: bool): seq<Event> {
    [Begin(id, email, ip)] + Proceeds(id, ok, 7)
  }

  /** In the interleaved machine it does what it does by itself, and leaves all other attempts as they were. */
  lemma LoginIsItsCommands(cfg: Config, s: State, id: nat, email: string, ip: Option<string>, ok: bool)
    requires id !in s.attempts && |Running(s)| < cfg.inFlight
    ensures Run(cfg, s, LoginTrace(id, email, ip, ok)) ==
              s.(store := AfterLogin(cfg, s.now, s.store, email, ip, ok),
                 attempts := s.attempts[id := Attempt(email, ip, Over)])
  {
    var t := Step(cfg, s, Begin(id, email, ip));
    assert t == s.(attempts := s.attempts[id := Attempt(email, ip, GetEmail)]);
    hide Step, Commands, AfterLogin, Run, Running, Proceeds;
    OneStep(cfg, s, Begin(id, email, ip));
    RunConcat(cfg, s, [Begin(id, email, ip)], Proceeds(id, ok, 7));
    ProceedsAreCommands(cfg, t, id, ok, 7);
    LoginCommands(cfg, s.now, s.store, email, ip, ok);
    assert t.attempts[id := Attempt(email, ip, Over)] == s.attempts[id := Attempt(email, ip, Over)];
  }

  // ---------- the bound ----------

  /** The attempt has read this key below the limit and may still count it up. */
  predicate MayCount(a: Attempt, k: Key) {
    match k
    case Email(e) => a.email == e && (a.pc == GetIp || a.pc == Verify || a.pc == IncrEmail)
    case Ip(i) => a.ip == Some(i) && (a.pc == Verify || a.pc == IncrEmail || a.pc == ExpireEmail || a.pc == IncrIp)
  }

  function Pending(s: State, k: Key): set<nat> { set id | id in s.attempts && MayCount(s.attempts[id], k) }

  /** An attempt reaches the ip commands only if it has an ip. */
  predicate Shaped(a: Attempt) { a.pc in {GetIp, IncrIp, ExpireIp, DelIp} ==> a.ip.Some? }

  /** Once the limit is reached nobody new gets through, so what can still be counted is what is under way. */
  ghost predicate Bounded(cfg: Config, s: State, k: Key) {
    Locked(cfg, At(s.store, k)) ==> At(s.store, k).count + |Pending(s, k)| <= cfg.maxAttempts - 1 + cfg.inFlight
  }

  ghost predicate Valid(cfg: Config, s: State, k: Key) {
    && |Running(s)| <= cfg.inFlight
    && (forall id :: id in s.attempts ==> Shaped(s.attempts[id]))
    && Bounded(cfg, s, k)
  }

  lemma SubsetSize(a: set<nat>, b: set<nat>)
    requires a <= b
    ensures |a| <= |b|
  {
    assert b == a + (b - a);
  }

  lemma PendingIsRunning(s: State, k: Key)
    ensures |Pending(s, k)| <= |Running(s)|
  {
    SubsetSize(Pending(s, k), Running(s));
  }

  /** What one command does to the attempts that may still count this key, and to its counter. */
  lemma CommandOnKey(cfg: Config, now: int, store: Store, a: Attempt, ok: bool, k: Key)
    requires Shaped(a) && cfg.maxAttempts > 0
    ensures var (after, b) := Command(cfg, now, store, a, ok);
            var c, d := At(store, k), At(after, k);
            && Shaped(b) && (a.pc == Over ==> b.pc == Over)
            && (Count(d) <= Count(c) || (Count(d) == Count(c) + 1 && MayCount(a, k) && !MayCount(b, k)))
            && (MayCount(b, k) ==> MayCount(a, k) || !Locked(cfg, c))
            && (MayCount(b, k) && !MayCount(a, k) ==> d == c)
            && (Locked(cfg, d) ==> Locked(cfg, c) || (Count(d) == cfg.maxAttempts && Count(d) == Count(c) + 1))
  {
  }

  /** Only the attempt that moves enters or leaves the pending ones. */
  lemma PendingAfter(s: State, t: State, id: nat, k: Key)
    requires id in s.attempts && id in t.attempts && t.attempts == s.attempts[id := t.attempts[id]]
    ensures |Pending(t, k)| + (if MayCount(s.attempts[id], k) then 1 else 0)
              == |Pending(s, k)| + (if MayCount(t.attempts[id], k) then 1 else 0)
  {
    hide MayCount;
    var rest := Pending(s, k) - {id};
    assert Pending(s, k) == if MayCount(s.attempts[id], k) then rest + {id} else rest;
    assert Pending(t, k) == if MayCount(t.attempts[id], k) then rest + {id} else rest;
  }

  lemma ProceedKeepsValid(cfg: Config, s: State, id: nat, ok: bool, k: Key)
    requires Valid(cfg, s, k) && id in s.attempts && cfg.maxAttempts > 0
    ensures Valid(cfg, Step(cfg, s, Proceed(id, ok)), k)
  {
    var t := Step(cfg, s, Proceed(id, ok));
    CommandOnKey(cfg, s.now, s.store, s.attempts[id], ok, k);
    SubsetSize(Running(t), Running(s)) by { hide Shaped, MayCount; }
    PendingIsRunning(s, k);
    PendingAfter(s, t, id, k);
    hide Command, MayCount, Shaped, Pending, Running;
  }

  lemma BeginKeepsValid(cfg: Config, s: State, id: nat, email: string, ip: Option<string>, k: Key)
    requires Valid(cfg, s, k)
    ensures Valid(cfg, Step(cfg, s, Begin(id, email, ip)), k)
  {
    var t := Step(cfg, s, Begin(id, email, ip));
    if t != s {
      assert Running(t) == Running(s) + {id};
      hide Running;
      assert Pending(t, k) == Pending(s, k);
      hide Pending, MayCount, Locked;
    }
  }

  lemma TickKeepsValid(cfg: Config, s: State, ms: nat, k: Key)
    requires Valid(cfg, s, k)
    ensures Valid(cfg, Step(cfg, s, Tick(ms)), k)
  {
    var t := Step(cfg, s, Tick(ms));
    assert Running(t) == Running(s) && Pending(t, k) == Pending(s, k);
  }

  lemma StepKeepsValid(cfg: Config, s: State, e: Event, k: Key)
    requires Valid(cfg, s, k) && cfg.maxAttempts > 0
    ensures Valid(cfg, Step(cfg, s, e), k)
  {
    hide Command, Valid;
    match e {
      case Proceed(id, ok) => if id in s.attempts { ProceedKeepsValid(cfg, s, id, ok, k); }
      case Begin(id, email, ip) => BeginKeepsValid(cfg, s, id, email, ip, k);
      case Tick(ms) => TickKeepsValid(cfg, s, ms, k);
    }
  }

  lemma {:induction false} RunKeepsValid(cfg: Config, s: State, es: seq<Event>, k: Key)
    requires Valid(cfg, s, k) && cfg.maxAttempts > 0
    ensures Valid(cfg, Run(cfg, s, es), k)
    decreases es
  {
    if es == [] {
    } else {
      StepKeepsValid(cfg, s, es[0], k);
      RunKeepsValid(cfg, Step(cfg, s, es[0]), es[1..], k);
    }
  }

  /**
   * With at most `inFlight` attempts under way at a time, no counter, for an email or for an address, ever
   * exceeds maxAttempts - 1 + inFlight within one lifetime, in any interleaving of their commands.
   */
  lemma CheckThenCountBound(cfg: Config, now: int, es: seq<Event>, k: Key)
    requires cfg.maxAttempts > 0 && cfg.inFlight > 0
    ensures Count(At(Run(cfg, State(now, map[], map[]), es).store, k)) <= cfg.maxAttempts - 1 + cfg.inFlight
  {
    var s0 := State(now, map[], map[]);
    assert Running(s0) == {};
    RunKeepsValid(cfg, s0, es, k);
  }

  // ---------- the bound is reached ----------

  /** `n` attempts for one email, none with an address, that have all passed the check. */
  ghost predicate AllPassed(s: State, email: string, n: nat) {
    forall id :: 0 <= id < n ==> id in s.attempts && s.attempts[id] == Attempt(email, None, IncrEmail)
  }

  function FailAll(n: nat): seq<Event> {
    if n == 0 then [] else [Proceed(n - 1, false)] + FailAll(n - 1)
  }

  /** Attempts that passed the check together are all counted. */
  lemma {:induction false} PassedTogetherAllCount(cfg: Config, s: State, email: string, n: nat)
    requires AllPassed(s, email, n)
    ensures Count(At(Run(cfg, s, FailAll(n)).store, Email(email))) == Count(At(s.store, Email(email))) + n
    decreases n
  {
    if n == 0 {
    } else {
      var t := Step(cfg, s, Proceed(n - 1, false));
      assert FailAll(n)[1..] == FailAll(n - 1);
      PassedTogetherAllCount(cfg, t, email, n - 1);
    }
  }

  /** `n` failed logins for the email, one after the other. */
  function Failures(first: nat, email: string, n: nat): seq<Event> {
    if n == 0 then [] else Failures(first, email, n - 1) + LoginTrace(first + n - 1, email, None, false)
  }

  /** Nobody is under way, and the ids below `low` and from `high` on have not been used. */
  ghost predicate Idle(s: State, low: nat, high: nat) {
    Running(s) == {} && forall id :: id in s.attempts ==> low <= id < high
  }

  lemma {:induction false} FailuresAreCounted(cfg: Config, s: State, first: nat, email: string, n: nat)
    requires Idle(s, first, first) && cfg.inFlight > 0 && Count(At(s.store, Email(email))) + n <= cfg.maxAttempts
    ensures var t := Run(cfg, s, Failures(first, email, n));
            Idle(t, first, first + n) && Count(At(t.store, Email(email))) == Count(At(s.store, Email(email))) + n
  {
    if n == 0 {
      assert Run(cfg, s, Failures(first, email, n)) == s;
    } else {
      hide Run, LoginTrace;
      var t := Run(cfg, s, Failures(first, email, n - 1));
      var last := first + n - 1;
      FailuresAreCounted(cfg, s, first, email, n - 1);
      RunConcat(cfg, s, Failures(first, email, n - 1), LoginTrace(last, email, None, false));
      LoginIsItsCommands(cfg, t, last, email, None, false);
      hide Failures;
      var u := Run(cfg, t, LoginTrace(last, email, None, false));
      assert Running(u) == Running(t);
    }
  }

  /** `n` attempts that have begun, passed the check and found their password wrong. */
  function Passes(email: string, n: nat): seq<Event> {
    if n == 0 then [] else Passes(email, n - 1) + [Begin(n - 1, email, None)] + Proceeds(n - 1, false, 2)
  }

  lemma OnePasses(cfg: Config, s: State, id: nat, email: string)
    requires id !in s.attempts && |Running(s)| < cfg.inFlight && Count(At(s.store, Email(email))) < cfg.maxAttempts
    ensures Run(cfg, s, [Begin(id, email, None)] + Proceeds(id, false, 2)) ==
              s.(attempts := s.attempts[id := Attempt(email, None, IncrEmail)])
  {
    var t := Step(cfg, s, Begin(id, email, None));
    OneStep(cfg, s, Begin(id, email, None));
    RunConcat(cfg, s, [Begin(id, email, None)], Proceeds(id, false, 2));
    ProceedsAreCommands(cfg, t, id, false, 2);
    CheckCommands(cfg, s.now, s.store, email, None, false);
    hide Run, Commands, Proceeds, Running;
    assert t.attempts[id := Attempt(email, None, IncrEmail)] == s.attempts[id := Attempt(email, None, IncrEmail)];
  }

  lemma {:induction false} PassesPass(cfg: Config, s: State, email: string, n: nat, high: nat)
    requires Idle(s, cfg.inFlight, high) && n <= cfg.inFlight && Count(At(s.store, Email(email))) < cfg.maxAttempts
    ensures var t := Run(cfg, s, Passes(email, n));
            && AllPassed(t, email, n) && t.store == s.store && |Running(t)| == n
            && forall id :: id in t.attempts ==> id < n || cfg.inFlight <= id
  {
    if n == 0 {
      assert Run(cfg, s, Passes(email, n)) == s;
    } else {
      var one := [Begin(n - 1, email, None)] + Proceeds(n - 1, false, 2);
      assert Passes(email, n) == Passes(email, n - 1) + one;
      hide *;
      var t := Run(cfg, s, Passes(email, n - 1));
      PassesPass(cfg, s, email, n - 1, high);
      OnePasses(cfg, t, n - 1, email);
      RunConcat(cfg, s, Passes(email, n - 1), one);
      PassesOneMore(t, email, n - 1, cfg.inFlight);
    }
  }

  lemma PassesOneMore(s: State, email: string, n: nat, high: nat)
    requires AllPassed(s, email, n) && |Running(s)| == n < high
    requires forall id :: id in s.attempts ==> id < n || high <= id
    ensures var t := s.(attempts := s.attempts[n := Attempt(email, None, IncrEmail)]);
            AllPassed(t, email, n + 1) && |Running(t)| == n + 1
  {
    var t := s.(attempts := s.attempts[n := Attempt(email, None, IncrEmail)]);
    assert Running(t) == Running(s) + {n};
  }

  /** All but one of the permitted failures, and then as many attempts at once as can be under way. */
  function Storm(cfg: Config, email: string): seq<Event>
    requires cfg.maxAttempts > 0
  {
    Failures(cfg.inFlight, email, cfg.maxAttempts - 1) + Passes(email, cfg.inFlight) + FailAll(cfg.inFlight)
  }

  /** For every configuration the bound is attained, starting from no counter at all. */
  lemma BoundIsReached(cfg: Config, now: int, email: string)
    requires cfg.maxAttempts > 0 && cfg.inFlight > 0
    ensures Count(At(Run(cfg, State(now, map[], map[]), Storm(cfg, email)).store, Email(email)))
              == cfg.maxAttempts - 1 + cfg.inFlight
  {
    var s0 := State(now, map[], map[]);
    var failures, passes := Failures(cfg.inFlight, email, cfg.maxAttempts - 1), Passes(email, cfg.inFlight);
    assert Running(s0) == {};
    FailuresAreCounted(cfg, s0, cfg.inFlight, email, cfg.maxAttempts - 1);
    var s1 := Run(cfg, s0, failures);
    PassesPass(cfg, s1, email, cfg.inFlight, cfg.inFlight + cfg.maxAttempts - 1);
    var s2 := Run(cfg, s1, passes);
    PassedTogetherAllCount(cfg, s2, email, cfg.inFlight);
    hide Run, Failures, Passes, FailAll;
    RunConcat(cfg, s0, failures, passes);
    RunConcat(cfg, s0, failures + passes, FailAll(cfg.inFlight));
  }

  // ---------- the window ----------

  /** A counter is gone, and with it the lock, exactly when its window is over; until then time changes nothing. */
  lemma WindowsEnd(cfg: Config, s: State, ms: nat, k: Key)
    requires k in s.store && s.store[k].Present? && s.store[k].expiry.Some?
    ensures var t := Step(cfg, s, Tick(ms));
            && t.now == s.now + ms && t.attempts == s.attempts
            && At(t.store, k) == (if s.store[k].expiry.value <= s.now + ms then Absent else s.store[k])
            && (Locked(cfg, At(t.store, k)) <==> Locked(cfg, s.store[k]) && s.now + ms < s.store[k].expiry.value)
  {
  }

  // ---------- the service ----------

  class LoginThrottleService {
    const cfg: Config
    var now: int
    var store: Store

    constructor (cfg: Config, now: int)
      ensures this.cfg == cfg && this.now == now && store == map[]
    {
      this.cfg, this.now, this.store := cfg, now, map[];
    }

    method IsLocked(email: string, ip: Option<string>) returns (locked: bool)
      ensures locked <==> IsLockedFor(cfg, store, email, ip)
    {
      if Locked(cfg, At(store, Email(email))) { return true; }
      if ip.Some? {
        if Locked(cfg, At(store, Ip(ip.value))) { return true; }
      }
      return false;
    }

    /** One failure more on this key; the window starts with the first. */
    method IncrementWithWindow(k: Key)
      modifies this`store
      ensures store == Counted(cfg, now, old(store), k)
      ensures At(store, k) == if Count(At(old(store), k)) == 0 then Present(1, Some(now + cfg.windowMs))
                              else Incr(At(old(store), k))
      ensures forall j :: j != k ==> At(store, j) == At(old(store), j)
    {
      var c := Incr(At(store, k));
      store := store[k := c];
      if c.count == 1 {
        store := store[k := PExpire(c, now, cfg.windowMs)];
      }
    }

    method RecordFailure(email: string, ip: Option<string>)
      modifies this`store
      ensures store == Failed(cfg, now, old(store), email, ip)
      ensures forall k :: Count(At(store, k)) == Count(At(old(store), k))
                + (if k == Email(email) || (ip.Some? && k == Ip(ip.value)) then 1 else 0)
    {
      IncrementWithWindow(Email(email));
      if ip.Some? { IncrementWithWindow(Ip(ip.value)); }
    }

    method Reset(email: string, ip: Option<string>)
      modifies this`store
      ensures store == Cleared(old(store), email, ip)
      ensures forall k :: At(store, k) ==
                if k == Email(email) || (ip.Some? && k == Ip(ip.value)) then Absent else At(old(store), k)
    {
      store := store[Email(email) := Absent];
      if ip.Some? { store := store[Ip(ip.value) := Absent]; }
    }

    /**
     * The throttle's part of a login, uninterrupted: the run of its commands in the machine above, from any state
     * with these counters that has room for one more attempt. A locked attempt changes nothing, a failure counts,
     * a success clears.
     */
    method Login(email: string, ip: Option<string>, passwordOk: bool) returns (locked: bool)
      modifies this`store
      ensures locked <==> IsLockedFor(cfg, old(store), email, ip)
      ensures forall s: State, id ::
                s.now == now && s.store == old(store) && id !in s.attempts && |Running(s)| < cfg.inFlight ==>
                  Run(cfg, s, LoginTrace(id, email, ip, passwordOk)) ==
                    s.(store := store, attempts := s.attempts[id := Attempt(email, ip, Over)])
      ensures forall k ::
                var c, d := At(old(store), k), At(store, k);
                var mine := k == Email(email) || (ip.Some? && k == Ip(ip.value));
                if locked || !mine then Count(d) == Count(c)
                else if passwordOk then d == Absent else Count(d) == Count(c) + 1
    {
      ghost var before := store;
      locked := IsLocked(email, ip);
      if locked {
      } else if passwordOk {
        Reset(email, ip);
      } else {
        RecordFailure(email, ip);
      }
      assert store == AfterLogin(cfg, now, before, email, ip, passwordOk);
      forall s: State, id |
        s.now == now && s.store == before && id !in s.attempts && |Running(s)| < cfg.inFlight
        ensures Run(cfg, s, LoginTrace(id, email, ip, passwordOk)) ==
                  s.(store := store, attempts := s.attempts[id := Attempt(email, ip, Over)])
      {
        LoginIsItsCommands(cfg, s, id, email, ip, passwordOk);
      }
    }
  }
}
