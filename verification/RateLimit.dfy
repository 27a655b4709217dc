/**
 * RateLimitService.consume as the several Redis commands it sends, with any number of calls on one key
 * interleaved command by command while time passes and the key expires.
 */
module RateLimit {
  import opened Basics
  import opened Redis

  /** How far a call has come after its INCR returned `count` in the key's lifetime number `life`. */
  datatype Phase =
    | Counted(count: nat, life: int)    // owes a PEXPIRE if it counted 1, a PTTL otherwise
    | Repairing(count: nat, life: int)  // saw no expiry and owes a PEXPIRE
    | Finished(count: nat, life: int)

  /** One INCR: when, in which lifetime of the key, and what it returned. */
  datatype Hit = Hit(at: int, life: int, count: nat)

  /** `born` and `hits` record the creations of the key and the INCRs so far; no command reads them. */
  datatype State = State(now: int, key: Counter, calls: map<nat, Phase>, born: seq<int>, hits: seq<Hit>)

  datatype Event =
    | Start(id: nat)       // the INCR of a new call
    | Proceed(id: nat)     // the next command of that call
    | Tick(ms: nat)        // time passes
    | Abandon(id: nat)     // the process serving the call dies

  function Step(s: State, e: Event, window: nat): State {
    match e
    case Start(id) =>
      if id in s.calls then s
      else
        var born := if s.key.Absent? then s.born + [s.now] else s.born;
        var key := Incr(s.key);
        s.(key := key, born := born, calls := s.calls[id := Counted(key.count, |born| - 1)],
           hits := s.hits + [Hit(s.now, |born| - 1, key.count)])
    case Proceed(id) =>
      if id !in s.calls then s
      else (
        match s.calls[id]
        case Counted(n, l) =>
          if n == 1 then s.(key := PExpire(s.key, s.now, window), calls := s.calls[id := Finished(n, l)])
          else if PTtl(s.key, s.now) < 0 then s.(calls := s.calls[id := Repairing(n, l)])
          else s.(calls := s.calls[id := Finished(n, l)])
        case Repairing(n, l) => s.(key := PExpire(s.key, s.now, window), calls := s.calls[id := Finished(n, l)])
        case Finished(_, _) => s)
    case Tick(ms) => s.(now := s.now + ms, key := Elapse(s.key, s.now + ms))
    case Abandon(id) => s.(calls := s.calls - {id})
  }

  function Run(s: State, es: seq<Event>, window: nat): State
    decreases es
  {
    if es == [] then s else Run(Step(s, es[0], window), es[1..], window)
  }

  /** Nothing has been counted yet. */
  function Initial(now: int): State { State(now, Absent, map[], [], []) }

  lemma {:induction false} RunConcat(s: State, a: seq<Event>, b: seq<Event>, window: nat)
    ensures Run(s, a + b, window) == Run(Run(s, a, window), b, window)
    decreases a
  {
    if a == [] {
      assert a + b == b;
    } else {
      assert (a + b)[0] == a[0] && (a + b)[1..] == a[1..] + b;
      RunConcat(Step(s, a[0], window), a[1..], b, window);
    }
  }

  // ---------- the invariant of every run ----------

  /** The number of INCRs in one lifetime of the key. */
  function InLife(hits: seq<Hit>, life: int): nat {
    if hits == [] then 0
    else InLife(hits[..|hits| - 1], life) + (if hits[|hits| - 1].life == life then 1 else 0)
  }

  /** Creations of the key are a window apart, and it lives at least a window, whoever sets its expiry. */
  ghost predicate Spaced(s: State, window: nat) {
    && (forall i, j :: 0 <= i < j < |s.born| ==> s.born[i] + window <= s.born[j])
    && (forall i :: 0 <= i < |s.born| ==> s.born[i] <= s.now)
    && (s.born == [] ==> s.key.Absent?)
    && (s.born != [] && s.key.Absent? ==> s.born[|s.born| - 1] + window <= s.now)
    && (s.key.Present? && s.key.expiry.Some? ==>
          s.key.expiry.value >= s.born[|s.born| - 1] + window && s.key.expiry.value > s.now)
  }

  /** Each INCR falls between the creation of its own lifetime and that of the next. */
  ghost predicate Placed(s: State) {
    forall h :: h in s.hits ==>
      && 0 <= h.life < |s.born| && s.born[h.life] <= h.at <= s.now
      && (h.life + 1 < |s.born| ==> h.at < s.born[h.life + 1])
      && (s.key.Absent? ==> h.at < s.now)
  }

  /** The INCR that returns 1 is the one that creates the key. */
  ghost predicate Opened(s: State) {
    && (s.key.Present? ==> s.key.count > 0)
    && forall h :: h in s.hits && h.count == 1 ==> 0 <= h.life < |s.born| && h.at == s.born[h.life]
  }

  /** The INCRs of a lifetime return 1, 2, 3, ... */
  ghost predicate Numbered(hits: seq<Hit>) {
    forall i :: 0 <= i < |hits| ==> hits[i].count == InLife(hits[..i], hits[i].life) + 1
  }

  ghost predicate Valid(s: State, window: nat) {
    && Spaced(s, window) && Placed(s) && Opened(s) && Numbered(s.hits)
    && (s.key.Present? ==> s.key.count == InLife(s.hits, |s.born| - 1))
    && (forall l :: l >= |s.born| ==> InLife(s.hits, l) == 0)
  }

  lemma InLifeOfLonger(hits: seq<Hit>, h: Hit, life: int)
    ensures InLife(hits + [h], life) == InLife(hits, life) + (if h.life == life then 1 else 0)
  {
    assert (hits + [h])[..|hits|] == hits;
  }

  lemma NumberedLonger(hits: seq<Hit>, h: Hit)
    requires Numbered(hits) && h.count == InLife(hits, h.life) + 1
    ensures Numbered(hits + [h])
  {
    var longer := hits + [h];
    forall i | 0 <= i < |longer|
      ensures longer[i].count == InLife(longer[..i], longer[i].life) + 1
    {
      if i < |hits| { assert longer[..i] == hits[..i]; } else { assert longer[..i] == hits; }
    }
  }

  lemma StartKeepsPlaced(s: State, id: nat, window: nat)
    requires Spaced(s, window) && Placed(s) && id !in s.calls
    ensures Spaced(Step(s, Start(id), window), window) && Placed(Step(s, Start(id), window))
  {
    var t := Step(s, Start(id), window);
    forall h | h in t.hits
      ensures 0 <= h.life < |t.born| && t.born[h.life] <= h.at <= t.now
      ensures h.life + 1 < |t.born| ==> h.at < t.born[h.life + 1]
    {
      assert h == t.hits[|s.hits|] || h in s.hits;
    }
  }

  lemma StepKeepsOpened(s: State, e: Event, window: nat)
    requires Opened(s)
    ensures Opened(Step(s, e, window))
  {
    var t := Step(s, e, window);
    forall h | h in t.hits && h.count == 1 ensures 0 <= h.life < |t.born| && h.at == t.born[h.life] {
      if e.Start? && e.id !in s.calls { assert h == t.hits[|s.hits|] || h in s.hits; }
    }
  }

  lemma StartKeepsValid(s: State, id: nat, window: nat)
    requires Valid(s, window) && id !in s.calls
    ensures Valid(Step(s, Start(id), window), window)
  {
    hide InLife, Numbered;
    var t := Step(s, Start(id), window);
    var h := t.hits[|s.hits|];
    StartKeepsPlaced(s, id, window);
    StepKeepsOpened(s, Start(id), window);
    forall l ensures InLife(t.hits, l) == InLife(s.hits, l) + (if h.life == l then 1 else 0) {
      InLifeOfLonger(s.hits, h, l);
    }
    hide Spaced, Placed, Opened;
    NumberedLonger(s.hits, h);
  }

  lemma OtherKeepsPlaced(s: State, e: Event, window: nat)
    requires Spaced(s, window) && Placed(s) && window > 0 && !e.Start?
    ensures Spaced(Step(s, e, window), window) && Placed(Step(s, e, window))
  {
    var t := Step(s, e, window);
    assert t.born == s.born && t.hits == s.hits;
    if e.Tick? && t.key.Absent? && s.key.Present? {
      assert t.now > s.now;
    }
  }

  lemma OtherCountsNothing(s: State, e: Event, window: nat)
    requires !e.Start?
    ensures var t := Step(s, e, window);
            t.born == s.born && t.hits == s.hits && (t.key.Present? ==> s.key.Present? && t.key.count == s.key.count)
  {
  }

  lemma OtherKeepsValid(s: State, e: Event, window: nat)
    requires Valid(s, window) && window > 0 && !e.Start?
    ensures Valid(Step(s, e, window), window)
  {
    hide InLife, Numbered, Opened, Spaced, Placed, Step;
    OtherKeepsPlaced(s, e, window);
    StepKeepsOpened(s, e, window);
    OtherCountsNothing(s, e, window);
    var t := Step(s, e, window);
    assert t.hits == s.hits && t.born == s.born;
  }

  lemma StepKeepsValid(s: State, e: Event, window: nat)
    requires Valid(s, window) && window > 0
    ensures Valid(Step(s, e, window), window)
  {
    if !e.Start? {
      OtherKeepsValid(s, e, window);
    } else if e.id !in s.calls {
      StartKeepsValid(s, e.id, window);
      hide Valid, Step;
    } else {
      hide Valid;
    }
  }

  lemma {:induction false} RunKeepsValid(s: State, es: seq<Event>, window: nat)
    requires Valid(s, window) && window > 0
    ensures Valid(Run(s, es, window), window)
    decreases es
  {
    if es == [] {
    } else {
      StepKeepsValid(s, es[0], window);
      RunKeepsValid(Step(s, es[0], window), es[1..], window);
    }
  }

  // ---------- exact admission ----------

  /** The requests of one lifetime that were let through. */
  function AllowedInLife(hits: seq<Hit>, life: int, limit: nat): nat {
    if hits == [] then 0
    else
      var h := hits[|hits| - 1];
      AllowedInLife(hits[..|hits| - 1], life, limit) + (if h.life == life && h.count <= limit then 1 else 0)
  }

  lemma {:induction false} AllowedIsMin(hits: seq<Hit>, life: int, limit: nat)
    requires Numbered(hits)
    ensures AllowedInLife(hits, life, limit) == Min(InLife(hits, life), limit)
  {
    if hits == [] {
    } else {
      var pre := hits[..|hits| - 1];
      forall i | 0 <= i < |pre| ensures pre[i].count == InLife(pre[..i], pre[i].life) + 1 {
        assert pre[..i] == hits[..i];
      }
      AllowedIsMin(pre, life, limit);
    }
  }

  /** Under any interleaving, of the n requests hitting one lifetime of the key exactly min(n, limit) pass. */
  lemma ExactAdmission(now: int, es: seq<Event>, window: nat, life: int, limit: nat)
    requires window > 0
    ensures var hits := Run(Initial(now), es, window).hits;
            AllowedInLife(hits, life, limit) == Min(InLife(hits, life), limit)
  {
    RunKeepsValid(Initial(now), es, window);
    AllowedIsMin(Run(Initial(now), es, window).hits, life, limit);
  }

  // ---------- the sliding bound ----------

  predicate Within(h: Hit, from: int, window: nat) { from <= h.at < from + window }

  /** The requests let through in [from, from + window). */
  function AllowedWithin(hits: seq<Hit>, from: int, window: nat, limit: nat): nat {
    if hits == [] then 0
    else
      var h := hits[|hits| - 1];
      AllowedWithin(hits[..|hits| - 1], from, window, limit)
      + (if Within(h, from, window) && h.count <= limit then 1 else 0)
  }

  /** No interval of one window meets three lifetimes of the key. */
  lemma AtMostTwoLives(s: State, window: nat, from: int, a: Hit, b: Hit, c: Hit)
    requires Valid(s, window) && a in s.hits && b in s.hits && c in s.hits
    requires Within(a, from, window) && Within(b, from, window) && Within(c, from, window)
    requires a.life <= b.life <= c.life
    ensures c.life <= a.life + 1
  {
  }

  lemma TwoNeighbouringLives(s: State, window: nat, from: int) returns (life: int)
    requires Valid(s, window)
    ensures forall h :: h in s.hits && Within(h, from, window) ==> h.life == life || h.life == life + 1
  {
    if exists h :: h in s.hits && Within(h, from, window) {
      var h :| h in s.hits && Within(h, from, window);
      life := if exists g :: g in s.hits && Within(g, from, window) && g.life < h.life then h.life - 1 else h.life;
      forall g | g in s.hits && Within(g, from, window)
        ensures g.life == life || g.life == life + 1
      {
        if g.life < h.life {
          AtMostTwoLives(s, window, from, g, h, h);
        } else {
          AtMostTwoLives(s, window, from, h, h, g);
          if exists f :: f in s.hits && Within(f, from, window) && f.life < h.life {
            var f :| f in s.hits && Within(f, from, window) && f.life < h.life;
            AtMostTwoLives(s, window, from, f, h, g);
          }
        }
      }
    } else {
      life := 0;
    }
  }

  /** The requests of one lifetime that were let through after its first. */
  function RepeatsInLife(hits: seq<Hit>, life: int, limit: nat): nat {
    if hits == [] then 0
    else
      var h := hits[|hits| - 1];
      RepeatsInLife(hits[..|hits| - 1], life, limit) + (if h.life == life && 2 <= h.count <= limit then 1 else 0)
  }

  lemma {:induction false} RepeatsAreOneLess(hits: seq<Hit>, life: int, limit: nat)
    requires Numbered(hits)
    ensures RepeatsInLife(hits, life, limit) == Max(0, Min(InLife(hits, life), limit) - 1)
  {
    if hits == [] {
    } else {
      var pre := hits[..|hits| - 1];
      forall i | 0 <= i < |pre| ensures pre[i].count == InLife(pre[..i], pre[i].life) + 1 {
        assert pre[..i] == hits[..i];
      }
      RepeatsAreOneLess(pre, life, limit);
    }
  }

  /** An interval that meets one lifetime only. */
  lemma {:induction false} WithinOneLife(hits: seq<Hit>, from: int, window: nat, limit: nat, life: int)
    requires forall h :: h in hits && Within(h, from, window) ==> h.life == life
    ensures AllowedWithin(hits, from, window, limit) <= AllowedInLife(hits, life, limit)
  {
    if hits == [] {
    } else {
      var pre := hits[..|hits| - 1];
      forall h | h in pre && Within(h, from, window) ensures h.life == life { assert h in hits; }
      WithinOneLife(pre, from, window, limit, life);
    }
  }

  /** An interval that meets two lifetimes, but not the first request of the earlier one. */
  lemma {:induction false} WithinTwoLives(hits: seq<Hit>, from: int, window: nat, limit: nat, life: int)
    requires forall h :: h in hits && Within(h, from, window) ==> h.life == life + 1 || (h.life == life && h.count != 1)
    requires Numbered(hits)
    ensures AllowedWithin(hits, from, window, limit)
              <= RepeatsInLife(hits, life, limit) + AllowedInLife(hits, life + 1, limit)
  {
    if hits == [] {
    } else {
      var pre := hits[..|hits| - 1];
      forall h | h in pre && Within(h, from, window) ensures h.life == life + 1 || (h.life == life && h.count != 1) {
        assert h in hits;
      }
      forall i | 0 <= i < |pre| ensures pre[i].count == InLife(pre[..i], pre[i].life) + 1 {
        assert pre[..i] == hits[..i];
      }
      WithinTwoLives(pre, from, window, limit, life);
    }
  }

  /** An interval that meets two lifetimes is longer than an instant and misses the creation of the earlier one. */
  lemma TwoLivesMissACreation(s: State, window: nat, from: int, a: Hit, b: Hit)
    requires Spaced(s, window) && Placed(s) && a in s.hits && b in s.hits && b.life == a.life + 1
    requires Within(a, from, window) && Within(b, from, window)
    ensures window > 1 && 0 <= a.life < |s.born| && s.born[a.life] < from
  {
    var i, j := a.life, b.life;
    assert a.at < s.born[j] <= b.at;
    assert s.born[i] + window <= s.born[j];
  }

  lemma IntervalBound(s: State, window: nat, from: int, limit: nat)
    requires Valid(s, window)
    ensures AllowedWithin(s.hits, from, window, limit) <= if window == 1 then limit else Max(0, 2 * limit - 1)
  {
    hide Spaced, Placed, Opened, AllowedWithin, AllowedInLife, RepeatsInLife, Within, Numbered, InLife;
    var life := TwoNeighbouringLives(s, window, from);
    AllowedIsMin(s.hits, life, limit);
    AllowedIsMin(s.hits, life + 1, limit);
    if forall h :: h in s.hits && Within(h, from, window) ==> h.life == life {
      WithinOneLife(s.hits, from, window, limit, life);
    } else if forall h :: h in s.hits && Within(h, from, window) ==> h.life == life + 1 {
      WithinOneLife(s.hits, from, window, limit, life + 1);
    } else {
      var a :| a in s.hits && Within(a, from, window) && a.life == life;
      var b :| b in s.hits && Within(b, from, window) && b.life == life + 1;
      BothLivesBound(s, window, from, limit, a, b);
    }
  }

  lemma BothLivesBound(s: State, window: nat, from: int, limit: nat, a: Hit, b: Hit)
    requires Valid(s, window) && a in s.hits && b in s.hits && b.life == a.life + 1
    requires Within(a, from, window) && Within(b, from, window)
    requires forall h :: h in s.hits && Within(h, from, window) ==> h.life == a.life || h.life == b.life
    ensures window > 1 && AllowedWithin(s.hits, from, window, limit) <= Max(0, 2 * limit - 1)
  {
    hide Spaced, Placed, Opened, AllowedWithin, AllowedInLife, RepeatsInLife, Within, Numbered, InLife;
    TwoLivesMissACreation(s, window, from, a, b);
    FirstIsMissed(s, window, from, a.life);
    WithinTwoLives(s.hits, from, window, limit, a.life);
    RepeatsAreOneLess(s.hits, a.life, limit);
    AllowedIsMin(s.hits, b.life, limit);
  }

  /**
   * The fixed window's sliding guarantee: whatever the interleaving and however late the PEXPIREs come, no
   * interval of one window length lets more than one less than twice the limit through, and none of a single
   * instant lets more than the limit through.
   */
  lemma SlidingBound(now: int, es: seq<Event>, window: nat, from: int, limit: nat)
    requires window > 0
    ensures AllowedWithin(Run(Initial(now), es, window).hits, from, window, limit)
              <= if window == 1 then limit else Max(0, 2 * limit - 1)
  {
    RunKeepsValid(Initial(now), es, window);
    IntervalBound(Run(Initial(now), es, window), window, from, limit);
  }

  lemma FirstIsMissed(s: State, window: nat, from: int, life: int)
    requires Opened(s) && 0 <= life < |s.born| && s.born[life] < from
    ensures forall h :: h in s.hits && Within(h, from, window) && h.life == life ==> h.count != 1
  {
  }

  // ---------- the bound is reached ----------

  /** `n` INCRs of new calls, one after the other. */
  function Starts(first: nat, n: nat): seq<Event> {
    if n == 0 then [] else Starts(first, n - 1) + [Start(first + n - 1)]
  }

  ghost predicate IdsBelow(s: State, first: nat) {
    forall id :: id in s.calls ==> id < first
  }

  /** Within the limit they are all let through. */
  lemma {:induction false} StartsAreAllowed(s: State, first: nat, n: nat, from: int, window: nat, limit: nat)
    requires IdsBelow(s, first) && Count(s.key) + n <= limit && from <= s.now < from + window
    ensures var t := Run(s, Starts(first, n), window);
            && AllowedWithin(t.hits, from, window, limit) == AllowedWithin(s.hits, from, window, limit) + n
            && IdsBelow(t, first + n) && t.now == s.now && Count(t.key) == Count(s.key) + n
            && (s.key.Present? ==> t.key.Present? && t.key.expiry == s.key.expiry)
  {
    if n == 0 {
      assert Run(s, Starts(first, n), window) == s;
    } else {
      var last := first + n - 1;
      assert Starts(first, n) == Starts(first, n - 1) + [Start(last)];
      hide *;
      var t := Run(s, Starts(first, n - 1), window);
      StartsAreAllowed(s, first, n - 1, from, window, limit);
      OneAllowed(t, last, from, window, limit);
      RunConcat(s, Starts(first, n - 1), [Start(last)], window);
      OneStep(t, Start(last), window);
    }
  }

  lemma OneAllowed(s: State, id: nat, from: int, window: nat, limit: nat)
    requires IdsBelow(s, id) && Count(s.key) < limit && from <= s.now < from + window
    ensures var t := Step(s, Start(id), window);
            && AllowedWithin(t.hits, from, window, limit) == AllowedWithin(s.hits, from, window, limit) + 1
            && IdsBelow(t, id + 1) && t.now == s.now && Count(t.key) == Count(s.key) + 1
            && t.key.Present? && (s.key.Present? ==> t.key.expiry == s.key.expiry)
  {
    var t := Step(s, Start(id), window);
    assert t.hits[..|t.hits| - 1] == s.hits;
  }

  /** One request opens the window, the others come at its end, and as many again when the next one opens. */
  function Burst(window: nat, limit: nat): seq<Event>
    requires window > 0 && limit > 0
  {
    [Start(0), Proceed(0), Tick(window - 1)] + Starts(1, limit - 1) + [Tick(1)] + Starts(limit, limit)
  }

  lemma Opening(now: int, window: nat)
    requires window > 1
    ensures Run(Initial(now), [Start(0), Proceed(0), Tick(window - 1)], window) ==
              State(now + window - 1, Present(1, Some(now + window)), map[0 := Finished(1, 0)], [now], [Hit(now, 0, 1)])
  {
    hide Step;
    var s := Initial(now);
    var e1, e2, e3 := Start(0), Proceed(0), Tick(window - 1);
    OneStep(s, e1, window);
    OneStep(Step(s, e1, window), e2, window);
    OneStep(Step(Step(s, e1, window), e2, window), e3, window);
    RunConcat(s, [e1], [e2], window);
    RunConcat(s, [e1, e2], [e3], window);
    assert [e1] + [e2] == [e1, e2] && [e1, e2] + [e3] == [e1, e2, e3];
    OpeningSteps(now, window);
  }

  lemma OpeningSteps(now: int, window: nat)
    requires window > 1
    ensures Step(Step(Step(Initial(now), Start(0), window), Proceed(0), window), Tick(window - 1), window) ==
              State(now + window - 1, Present(1, Some(now + window)), map[0 := Finished(1, 0)], [now], [Hit(now, 0, 1)])
  {
  }

  /** For every window of at least two ticks and every positive limit the sliding bound is attained. */
  lemma SlidingBoundIsReached(now: int, window: nat, limit: nat)
    requires window > 1 && limit > 0
    ensures AllowedWithin(Run(Initial(now), Burst(window, limit), window).hits, now + window - 1, window, limit)
              == 2 * limit - 1
  {
    var from := now + window - 1;
    var opening, again := [Start(0), Proceed(0), Tick(window - 1)], Starts(1, limit - 1);
    var s := Run(Initial(now), opening, window);
    Opening(now, window);
    assert AllowedWithin(s.hits, from, window, limit) == 0 by { assert s.hits[..0] == []; }
    StartsAreAllowed(s, 1, limit - 1, from, window, limit);
    var t := Run(s, again, window);
    var u := Step(t, Tick(1), window);
    StartsAreAllowed(u, limit, limit, from, window, limit);
    hide AllowedWithin, Starts;
    OneStep(t, Tick(1), window);
    RunConcat(Initial(now), opening, again, window);
    RunConcat(Initial(now), opening + again, [Tick(1)], window);
    RunConcat(Initial(now), opening + again + [Tick(1)], Starts(limit, limit), window);
  }

  /** The code is a sliding window only for the configurations that cannot tell the difference. */
  lemma SlidingWindowIff(window: nat, limit: nat)
    requires window > 0
    ensures (forall now, es, from ::
               AllowedWithin(Run(Initial(now), es, window).hits, from, window, limit) <= limit)
       <==> limit <= 1 || window == 1
  {
    if limit <= 1 || window == 1 {
      forall now, es, from ensures AllowedWithin(Run(Initial(now), es, window).hits, from, window, limit) <= limit {
        SlidingBound(now, es, window, from, limit);
      }
    } else {
      SlidingBoundIsReached(0, window, limit);
    }
  }

  // ---------- keys without an expiry ----------

  /** A call that created the key and has not set its expiry yet. */
  ghost predicate SomeoneOwesExpiry(s: State) {
    exists id :: id in s.calls && s.calls[id].Counted? && s.calls[id].count == 1
  }

  /** As long as no process dies, a key without an expiry is about to get one. */
  lemma {:induction false} NoExpiryIsOwed(s: State, es: seq<Event>, window: nat)
    requires s.key.Present? && s.key.expiry.None? ==> SomeoneOwesExpiry(s)
    requires forall e :: e in es ==> !e.Abandon?
    ensures var t := Run(s, es, window);
            t.key.Present? && t.key.expiry.None? ==> SomeoneOwesExpiry(t)
    decreases es
  {
    if es == [] {
    } else {
      var t := Step(s, es[0], window);
      if t.key.Present? && t.key.expiry.None? {
        if es[0].Start? && s.key.Absent? {
          assert t.calls[es[0].id].Counted?;
        } else {
          var id :| id in s.calls && s.calls[id].Counted? && s.calls[id].count == 1;
          assert t.calls[id] == s.calls[id];
        }
      }
      NoExpiryIsOwed(t, es[1..], window);
    }
  }

  /** The last command of a call, in whatever state it is carried out, leaves the key absent or expiring. */
  lemma LastCommandSettles(s: State, id: nat, window: nat)
    requires id in s.calls && !s.calls[id].Finished?
    ensures var t := Step(s, Proceed(id), window);
            t.calls[id].Finished? ==> t.key.Absent? || t.key.expiry.Some?
  {
  }

  /** A key without an expiry has not been settled by any call that counted in this lifetime. */
  ghost predicate Unsettled(s: State) {
    && (forall id :: id in s.calls ==> s.calls[id].life < |s.born|)
    && (s.key.Present? ==> s.born != [])
    && (s.key.Present? && s.key.expiry.None? ==>
          forall id :: id in s.calls && s.calls[id].Finished? ==> s.calls[id].life < |s.born| - 1)
  }

  lemma StepKeepsUnsettled(s: State, e: Event, window: nat)
    requires Unsettled(s)
    ensures Unsettled(Step(s, e, window))
  {
    if e.Proceed? && e.id in s.calls && !s.calls[e.id].Finished? {
      LastCommandSettles(s, e.id, window);
    }
  }

  lemma {:induction false} RunKeepsUnsettled(s: State, es: seq<Event>, window: nat)
    requires Unsettled(s)
    ensures Unsettled(Run(s, es, window))
    decreases es
  {
    if es == [] {
    } else {
      StepKeepsUnsettled(s, es[0], window);
      RunKeepsUnsettled(Step(s, es[0], window), es[1..], window);
    }
  }

  /** Even if processes die: while a key has no expiry, no call that counted in its lifetime has finished. */
  lemma NoExpiryMeansNobodyFinished(now: int, es: seq<Event>, window: nat, id: nat)
    ensures var s := Run(Initial(now), es, window);
            s.key.Present? && s.key.expiry.None? && id in s.calls && s.calls[id].Finished? ==>
              s.calls[id].life < |s.born| - 1
  {
    RunKeepsUnsettled(Initial(now), es, window);
  }

  /** A call that dies after its INCR leaves a key that never expires, and the next call repairs it. */
  lemma AbandonedKeyIsRepaired(now: int, ms: nat, window: nat)
    ensures var orphan := Run(Initial(now), [Start(0), Abandon(0), Tick(ms)], window);
            var repaired := Run(orphan, [Start(1), Proceed(1), Proceed(1)], window);
            && orphan.key == Present(1, None) && orphan.calls == map[] && orphan.now == now + ms
            && repaired.key == Present(2, Some(now + ms + window)) && repaired.calls[1].Finished?
  {
    var s := Initial(now);
    ThreeSteps(s, Start(0), Abandon(0), Tick(ms), window);
    var orphan := Run(s, [Start(0), Abandon(0), Tick(ms)], window);
    assert orphan.key == Present(1, None) && orphan.calls == map[];
    ThreeSteps(orphan, Start(1), Proceed(1), Proceed(1), window);
  }

  lemma ThreeSteps(s: State, a: Event, b: Event, c: Event, window: nat)
    ensures Run(s, [a, b, c], window) == Step(Step(Step(s, a, window), b, window), c, window)
  {
    hide Step;
    OneStep(s, a, window);
    OneStep(Step(s, a, window), b, window);
    OneStep(Step(Step(s, a, window), b, window), c, window);
    RunConcat(s, [a], [b], window);
    RunConcat(s, [a, b], [c], window);
    assert [a] + [b] == [a, b] && [a, b] + [c] == [a, b, c];
  }

  // ---------- one call among others ----------

  /** Whether the call is done with its second command. */
  predicate DoneByThen(s: State, id: nat, gap1: seq<Event>, window: nat) {
    var t := Run(s, [Start(id)] + gap1 + [Proceed(id)], window);
    id in t.calls && t.calls[id].Finished?
  }

  /** The two or three commands of a call, with whatever other calls do between them. */
  function CallTrace(s: State, id: nat, gap1: seq<Event>, gap2: seq<Event>, window: nat): seq<Event> {
    var two := [Start(id)] + gap1 + [Proceed(id)];
    if DoneByThen(s, id, gap1, window) then two else two + gap2 + [Proceed(id)]
  }

  predicate Mentions(e: Event, id: nat) { !e.Tick? && e.id == id }

  lemma {:induction false} GapLeavesCall(s: State, gap: seq<Event>, id: nat, window: nat)
    requires id in s.calls && forall e :: e in gap ==> !Mentions(e, id)
    ensures var t := Run(s, gap, window);
            id in t.calls && t.calls[id] == s.calls[id]
    decreases gap
  {
    if gap == [] {
    } else {
      assert gap[0] in gap;
      GapLeavesCall(Step(s, gap[0], window), gap[1..], id, window);
    }
  }

  /** The part of a call after its INCR, in the state that has been reached by then. */
  function Settle(s: State, id: nat, gap: seq<Event>, window: nat): State {
    var t := Step(s, Proceed(id), window);
    if id in t.calls && t.calls[id].Finished? then t else Step(Run(t, gap, window), Proceed(id), window)
  }

  lemma TraceIsACall(s: State, id: nat, gap1: seq<Event>, gap2: seq<Event>, window: nat)
    requires Valid(s, window) && window > 0
    ensures var t := Settle(Run(Step(s, Start(id), window), gap1, window), id, gap2, window);
            Run(s, CallTrace(s, id, gap1, gap2, window), window) == t && Valid(t, window)
  {
    var s1 := Step(s, Start(id), window);
    var s3 := Step(Run(s1, gap1, window), Proceed(id), window);
    var two := [Start(id)] + gap1 + [Proceed(id)];
    RunConcat(s, [Start(id)] + gap1, [Proceed(id)], window);
    RunConcat(s, [Start(id)], gap1, window);
    OneStep(s, Start(id), window);
    OneStep(Run(s1, gap1, window), Proceed(id), window);
    RunConcat(s, two + gap2, [Proceed(id)], window);
    RunConcat(s, two, gap2, window);
    OneStep(Run(s3, gap2, window), Proceed(id), window);
    RunKeepsValid(s, CallTrace(s, id, gap1, gap2, window), window);
    hide Valid, Step, Run;
  }

  lemma OneStep(s: State, e: Event, window: nat)
    ensures Run(s, [e], window) == Step(s, e, window)
  {
    assert Run(s, [e], window) == Run(Step(s, e, window), [], window);
  }

  // ---------- the service ----------

  datatype RateLimitResult = RateLimitResult(allowed: bool, limit: int, remaining: nat, resetAt: int)

  /** The service and one of its Redis keys; `calls`, `born` and `hits` are the bookkeeping of the machine above. */
  class RateLimitService {
    const windowMs: nat
    var now: int
    var key: Counter
    var calls: map<nat, Phase>
    var born: seq<int>
    var hits: seq<Hit>

    ghost function Abstract(): State
      reads this
    {
      State(now, key, calls, born, hits)
    }

    constructor (now: int, windowMs: nat)
      ensures Abstract() == Initial(now) && this.windowMs == windowMs
    {
      this.now, this.windowMs := now, windowMs;
      key, calls, born, hits := Absent, map[], [], [];
    }

    /** What the other callers and the clock do while this call waits for a reply. */
    method Others(gap: seq<Event>)
      modifies this
      ensures Abstract() == Run(old(Abstract()), gap, windowMs)
      ensures gap == [] ==> unchanged(this)
    {
      var s := Run(State(now, key, calls, born, hits), gap, windowMs);
      now, key, calls, born, hits := s.now, s.key, s.calls, s.born, s.hits;
    }

    method SendIncr(id: nat) returns (count: nat)
      requires id !in calls
      modifies this
      ensures Abstract() == Step(old(Abstract()), Start(id), windowMs)
      ensures count == Count(old(key)) + 1 && key == Incr(old(key))
      ensures id in calls && calls[id].Counted? && calls[id].count == count
    {
      if key.Absent? { born := born + [now]; }
      key := Incr(key);
      count := key.count;
      calls := calls[id := Counted(count, |born| - 1)];
      hits := hits + [Hit(now, |born| - 1, count)];
    }

    method SendPExpire(id: nat)
      requires id in calls && ((calls[id].Counted? && calls[id].count == 1) || calls[id].Repairing?)
      modifies this
      ensures Abstract() == Step(old(Abstract()), Proceed(id), windowMs)
      ensures now == old(now) && key == PExpire(old(key), now, windowMs)
      ensures id in calls && calls[id].Finished?
    {
      key := PExpire(key, now, windowMs);
      calls := calls[id := Finished(calls[id].count, calls[id].life)];
    }

    method SendPTtl(id: nat) returns (ttlMs: int)
      requires id in calls && calls[id].Counted? && calls[id].count != 1
      modifies this
      ensures Abstract() == Step(old(Abstract()), Proceed(id), windowMs)
      ensures now == old(now) && key == old(key) && ttlMs == PTtl(key, now)
      ensures id in calls && (if ttlMs < 0 then calls[id].Repairing? else calls[id].Finished?)
    {
      ttlMs := PTtl(key, now);
      var count, life := calls[id].count, calls[id].life;
      calls := calls[id := if ttlMs < 0 then Repairing(count, life) else Finished(count, life)];
    }

    /**
     * The part of `consume` after the INCR: give a new key its expiry, or read it, or repair a missing one.
     * Whatever others do meanwhile, the last command leaves the key absent or with the expiry that is reported.
     */
    method SettleExpiry(id: nat, gap: seq<Event>) returns (resetAt: int)
      requires id in calls && calls[id].Counted?
      requires forall e :: e in gap ==> !Mentions(e, id)
      modifies this
      ensures Abstract() == Settle(old(Abstract()), id, gap, windowMs)
      ensures key.Present? ==> key.expiry.Some? && resetAt == key.expiry.value / 1000
      ensures gap == [] && old(key).Present? ==> key.Present?
    {
      hide Run, Step;
      if calls[id].count == 1 {
        SendPExpire(id);
        return (now + windowMs) / 1000;
      }
      var ttlMs := SendPTtl(id);
      if ttlMs >= 0 {
        return (now + ttlMs) / 1000;
      }
      GapLeavesCall(Abstract(), gap, id, windowMs);
      Others(gap);
      SendPExpire(id);
      resetAt := (now + windowMs) / 1000;
    }

    /**
     * The request is decided by its own INCR alone, whatever happens around it. Its last command leaves the key
     * absent or expiring at the time it reports; alone on the key, it leaves it present.
     */
    method Consume(id: nat, limit: int, gap1: seq<Event>, gap2: seq<Event>) returns (r: RateLimitResult)
      requires Valid(Abstract(), windowMs) && windowMs > 0
      requires id !in calls
      requires forall e :: e in gap1 ==> !Mentions(e, id)
      requires forall e :: e in gap2 ==> !Mentions(e, id)
      modifies this
      ensures Valid(Abstract(), windowMs)
      ensures limit <= 0 ==>
                Abstract() == old(Abstract()) && r == RateLimitResult(false, limit, 0, now / 1000 + windowMs / 1000)
      ensures limit > 0 ==>
                && Abstract() == Run(old(Abstract()), CallTrace(old(Abstract()), id, gap1, gap2, windowMs), windowMs)
                && var n := Count(old(key)) + 1;
                   r.allowed == (n <= limit) && r.limit == limit && r.remaining == Max(0, limit - n)
      ensures limit > 0 && key.Present? ==> key.expiry.Some? && r.resetAt == key.expiry.value / 1000
      ensures limit > 0 && gap1 == gap2 == [] ==> key.Present?
    {
      hide Valid, Run, Step;
      if limit <= 0 {
        return RateLimitResult(false, limit, 0, now / 1000 + windowMs / 1000);
      }
      TraceIsACall(Abstract(), id, gap1, gap2, windowMs);
      hide Settle, CallTrace;
      var count := SendIncr(id);
      GapLeavesCall(Abstract(), gap1, id, windowMs);
      Others(gap1);
      var resetAt := SettleExpiry(id, gap2);
      r := RateLimitResult(count <= limit, limit, Max(0, limit - count), resetAt);
    }
  }
}
