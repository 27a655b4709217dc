/**
 * Reminders for conversations without a reply: a database row per rule and conversation as the source of truth, and a
 * delayed queue that may lose jobs, keep removed ones, or deliver a job more than once.
 */
module Scheduler {
  import opened Basics

  /** An enabled `time.no_reply_after` rule. A delay of 0 stands for a missing one. */
  datatype Rule = Rule(id: int, delay: int)

  datatype Key = Key(rule: int, conversation: int)

  datatype Status = Pending | Completed | Cancelled

  /** The row of a rule and conversation; scheduling again gives it a new id. */
  datatype Job = Job(id: int, scheduledFor: int, status: Status)

  /** What is handed to the queue, and the earliest time it is delivered at. */
  datatype Queued = Queued(id: int, rule: int, conversation: int, due: int)

  /** A message in or out of a conversation, or a rule's trigger executed for it. */
  datatype Entry =
    | In(conversation: int, at: int)
    | Out(conversation: int, at: int)
    | Fired(rule: int, conversation: int, at: int)

  /** `queue` is what a faultless queue would hold; `issued` is every job it was ever given. */
  datatype State = State(
    rows: map<Key, Job>, queue: map<Key, Queued>, issued: set<Queued>, next: int, now: int, log: seq<Entry>)

  const INITIAL: State := State(map[], map[], {}, 0, 0, [])

  // ---------- operations ----------

  function ScheduleOne(s: State, rule: Rule, c: int): State {
    if rule.delay == 0 then s
    else
      var key := Key(rule.id, c);
      var job := Queued(s.next, rule.id, c, s.now + rule.delay);
      s.(rows := s.rows[key := Job(s.next, s.now + rule.delay, Pending)],
         queue := s.queue[key := job],
         issued := s.issued + {job},
         next := s.next + 1)
  }

  /** `scheduleNoReplyRules` */
  function ScheduleAll(s: State, rules: seq<Rule>, c: int): State
    decreases rules
  {
    if rules == [] then s else ScheduleAll(ScheduleOne(s, rules[0], c), rules[1..], c)
  }

  function PendingKeys(rows: map<Key, Job>, c: int): set<Key> {
    set k | k in rows && k.conversation == c && rows[k].status.Pending?
  }

  function Cancelling(rows: map<Key, Job>, keys: set<Key>): map<Key, Job> {
    map k | k in rows :: if k in keys then rows[k].(status := Cancelled) else rows[k]
  }

  /** `cancelNoReplyRules` */
  function CancelAll(s: State, c: int): State {
    var keys := PendingKeys(s.rows, c);
    s.(rows := Cancelling(s.rows, keys), queue := s.queue - keys)
  }

  predicate Due(s: State, j: Queued) {
    exists k :: k in s.rows && s.rows[k].id == j.id && s.rows[k].status.Pending?
  }

  /** `fire`: the row is looked up by the id in the job's data; the trigger names the data's rule and conversation. */
  function Fire(s: State, j: Queued): State {
    if !Due(s, j) then s
    else
      s.(rows := map k | k in s.rows :: if s.rows[k].id == j.id then s.rows[k].(status := Completed) else s.rows[k],
         log := s.log + [Fired(j.rule, j.conversation, s.now)])
  }

  datatype Event =
    | Inbound(conversation: int, rules: seq<Rule>, at: int)
    | Outbound(conversation: int, at: int)
    | Deliver(job: Queued, at: int)
    | Lose(key: Key)

  function Tick(s: State, at: int): State { s.(now := Max(s.now, at)) }

  function Step(s: State, e: Event): State {
    match e
    case Inbound(c, rules, at) =>
      var u := Tick(s, at);
      ScheduleAll(u.(log := u.log + [In(c, u.now)]), rules, c)
    case Outbound(c, at) =>
      var u := Tick(s, at);
      CancelAll(u.(log := u.log + [Out(c, u.now)]), c)
    case Deliver(j, at) =>
      var u := Tick(s, at);
      var key := Key(j.rule, j.conversation);
      if j !in u.issued || u.now < j.due then u
      else Fire(if key in u.queue && u.queue[key] == j then u.(queue := u.queue - {key}) else u, j)
    case Lose(key) => s.(queue := s.queue - {key})
  }

  function Run(s: State, es: seq<Event>): State
    decreases es
  {
    if es == [] then s else Run(Step(s, es[0]), es[1..])
  }

  // ---------- invariants ----------

  ghost predicate IdsFresh(s: State) {
    && (forall j :: j in s.issued ==> j.id < s.next)
    && (forall k :: k in s.rows ==> s.rows[k].id < s.next)
  }

  ghost predicate IdsUnique(s: State) {
    forall k, l :: k in s.rows && l in s.rows && s.rows[k].id == s.rows[l].id ==> k == l
  }

  /** A job whose id is still a row's was issued for that very row. */
  ghost predicate JobsMatch(s: State) {
    forall j, k :: j in s.issued && k in s.rows && s.rows[k].id == j.id ==>
      k == Key(j.rule, j.conversation) && j.due == s.rows[k].scheduledFor
  }

  ghost predicate Consistent(s: State) {
    IdsFresh(s) && IdsUnique(s) && JobsMatch(s)
  }

  /** The entry bears on the rule's reminder for the conversation. */
  predicate Mine(e: Entry, r: int, c: int) {
    e.conversation == c && (e.Fired? ==> e.rule == r)
  }

  /** Since an inbound message at `u`, the i-th entry, nothing has happened for the rule and conversation. */
  ghost predicate Unanswered(log: seq<Entry>, r: int, c: int, i: nat, u: int) {
    i < |log| && log[i] == In(c, u) && forall m :: i < m < |log| ==> !Mine(log[m], r, c)
  }

  datatype Wait = Settled | Since(at: int)

  /** What one more entry makes of a wait. */
  function After(w: Wait, e: Entry, r: int, c: int): Wait {
    if !Mine(e, r, c) then w else if e.In? then Since(e.at) else Settled
  }

  /** The inbound message the conversation is waiting on, as far as the rule is concerned. */
  function Waiting(log: seq<Entry>, r: int, c: int): Wait {
    if log == [] then Settled
    else
      var e := log[|log| - 1];
      After(Waiting(log[..|log| - 1], r, c), e, r, c)
  }

  lemma {:induction false} WaitingIsUnanswered(log: seq<Entry>, r: int, c: int, u: int)
    ensures Waiting(log, r, c) == Since(u) <==> exists i: nat :: Unanswered(log, r, c, i, u)
  {
    if log == [] {
    } else {
      var n := |log| - 1;
      var front := log[..n];
      WaitingIsUnanswered(front, r, c, u);
      if Mine(log[n], r, c) {
        assert log[n] == In(c, u) ==> Unanswered(log, r, c, n, u);
      } else {
        forall i: nat ensures Unanswered(log, r, c, i, u) <==> Unanswered(front, r, c, i, u) {
          assert forall m :: i < m < n ==> front[m] == log[m];
        }
      }
    }
  }

  lemma WaitingAppend(log: seq<Entry>, e: Entry, r: int, c: int)
    ensures Waiting(log + [e], r, c) == After(Waiting(log, r, c), e, r, c)
  {
    assert (log + [e])[..|log|] == log;
  }

  /** The message the row's reminder is for. */
  function Reminds(s: State, r: int, c: int, h: int): Wait {
    if Key(r, c) in s.rows && s.rows[Key(r, c)].status.Pending? then Since(s.rows[Key(r, c)].scheduledFor - h)
    else Settled
  }

  /** A reminder is pending exactly for the conversations that wait, `h` after their last inbound message. */
  ghost predicate RemindersMatch(s: State, r: int, h: int) {
    forall c :: Reminds(s, r, c, h) == Waiting(s.log, r, c)
  }

  /** The k-th entry, a trigger, answers an inbound message at least `h` old with nothing in between. */
  predicate IsDue(log: seq<Entry>, k: nat, h: int)
    requires k < |log| && log[k].Fired?
  {
    var w := Waiting(log[..k], log[k].rule, log[k].conversation);
    w.Since? && w.at + h <= log[k].at
  }

  ghost predicate AllDue(log: seq<Entry>, r: int, h: int) {
    forall k: nat :: k < |log| && log[k].Fired? && log[k].rule == r ==> IsDue(log, k, h)
  }

  /** The rule is enabled with the same delay whenever a message comes in; other rules come and go. */
  predicate Steady(e: Event, r: int, h: int) {
    e.Inbound? ==>
      && Rule(r, h) in e.rules
      && (forall i :: 0 <= i < |e.rules| && e.rules[i].id == r ==> e.rules[i].delay == h)
  }

  // ---------- scheduling ----------

  lemma ScheduleOneKeeps(s: State, rule: Rule, c: int)
    requires Consistent(s)
    ensures Consistent(ScheduleOne(s, rule, c))
  {
  }

  lemma {:induction false} ScheduleAllKeeps(s: State, rules: seq<Rule>, c: int)
    requires Consistent(s)
    ensures var u := ScheduleAll(s, rules, c);
            && Consistent(u) && u.log == s.log && u.now == s.now
            && (forall k :: k in s.rows && k.conversation != c ==> k in u.rows && u.rows[k] == s.rows[k])
            && (forall k :: k in u.rows && k.conversation != c ==> k in s.rows)
    decreases rules
  {
    if rules == [] {
    } else {
      ScheduleOneKeeps(s, rules[0], c);
      ScheduleAllKeeps(ScheduleOne(s, rules[0], c), rules[1..], c);
    }
  }

  /** Every mention of the rule leaves its row pending after the same delay. */
  lemma {:induction false} ScheduleAllSets(s: State, rules: seq<Rule>, c: int, r: int, h: int)
    requires h != 0 && forall i :: 0 <= i < |rules| && rules[i].id == r ==> rules[i].delay == h
    requires Rule(r, h) in rules || Reminds(s, r, c, h) == Since(s.now)
    ensures Reminds(ScheduleAll(s, rules, c), r, c, h) == Since(s.now)
    decreases rules
  {
    if rules == [] {
    } else {
      var m := ScheduleOne(s, rules[0], c);
      assert rules[0] == Rule(r, h) || Rule(r, h) !in rules || Rule(r, h) in rules[1..];
      ScheduleAllSets(m, rules[1..], c, r, h);
    }
  }

  /** Cancelling ends exactly the conversation's pending rows and takes exactly their jobs out of the queue. */
  lemma CancelMeaning(s: State, c: int, k: Key)
    ensures var u := CancelAll(s, c);
            var mine := k in s.rows && k.conversation == c && s.rows[k].status.Pending?;
            && (k in u.rows <==> k in s.rows)
            && (k in s.rows ==> u.rows[k] == if mine then s.rows[k].(status := Cancelled) else s.rows[k])
            && (k in u.queue <==> k in s.queue && !mine)
            && (k in u.queue ==> u.queue[k] == s.queue[k])
            && u.issued == s.issued && u.log == s.log && u.next == s.next && u.now == s.now
  {
  }

  /** Firing completes exactly the row the job was issued for and logs one trigger, or does nothing. */
  lemma FireMeaning(s: State, j: Queued, k: Key)
    requires Consistent(s) && j in s.issued && k in s.rows
    ensures var u := Fire(s, j);
            var mine := s.rows[k].id == j.id;
            && k in u.rows
            && (mine && s.rows[k].status.Pending? ==>
                  && k == Key(j.rule, j.conversation) && u.rows[k] == s.rows[k].(status := Completed)
                  && u.log == s.log + [Fired(j.rule, j.conversation, s.now)])
            && (mine && !s.rows[k].status.Pending? ==> u == s)
            && (!mine ==> u.rows[k] == s.rows[k])
  {
  }

  /** Losing a job only empties its place in the queue; delivering one takes it out and leaves the others. */
  lemma QueueMeaning(s: State, key: Key, j: Queued, at: int, k: Key)
    ensures Step(s, Lose(key)) == s.(queue := s.queue - {key})
    ensures var u := Step(s, Deliver(j, at));
            var delivered := j in s.issued && j.due <= Max(s.now, at);
            && (k in u.queue <==>
                  k in s.queue && !(delivered && k == Key(j.rule, j.conversation) && s.queue[k] == j))
            && (k in u.queue ==> u.queue[k] == s.queue[k])
            && (!delivered ==> u == s.(now := Max(s.now, at)))
  {
  }

  // ---------- the log ----------

  lemma DueAppend(log: seq<Entry>, e: Entry, r: int, h: int)
    requires AllDue(log, r, h)
    requires e.Fired? && e.rule == r ==>
               Waiting(log, r, e.conversation).Since? && Waiting(log, r, e.conversation).at + h <= e.at
    ensures AllDue(log + [e], r, h)
  {
    var longer := log + [e];
    forall k: nat | k < |longer| && longer[k].Fired? && longer[k].rule == r ensures IsDue(longer, k, h) {
      assert longer[..k] == log[..k];
      if k == |log| {
        assert log[..k] == log;
      } else {
        assert IsDue(log, k, h);
      }
    }
  }

  /** A state whose log has grown by `e`, and whose reminders have changed as `e` demands. */
  lemma MatchAppend(s: State, u: State, e: Entry, r: int, h: int)
    requires RemindersMatch(s, r, h) && u.log == s.log + [e]
    requires forall c :: Reminds(u, r, c, h) == After(Reminds(s, r, c, h), e, r, c)
    ensures RemindersMatch(u, r, h)
  {
    hide Reminds;
    forall c ensures Reminds(u, r, c, h) == Waiting(u.log, r, c) { WaitingAppend(s.log, e, r, c); }
  }

  lemma InboundKeepsMatch(s: State, e: Event, r: int, h: int)
    requires Consistent(s) && RemindersMatch(s, r, h) && e.Inbound? && Steady(e, r, h) && h != 0
    ensures Consistent(Step(s, e)) && RemindersMatch(Step(s, e), r, h)
  {
    var t := Tick(s, e.at);
    var m := t.(log := t.log + [In(e.conversation, t.now)]);
    assert Consistent(m);
    ScheduleAllKeeps(m, e.rules, e.conversation);
    ScheduleAllSets(m, e.rules, e.conversation, r, h);
    hide Consistent, ScheduleAll;
    MatchAppend(s, Step(s, e), In(e.conversation, t.now), r, h);
  }

  lemma OutboundKeepsMatch(s: State, e: Event, r: int, h: int)
    requires RemindersMatch(s, r, h) && e.Outbound?
    ensures RemindersMatch(Step(s, e), r, h)
  {
    MatchAppend(s, Step(s, e), Out(e.conversation, Tick(s, e.at).now), r, h);
  }

  /** The row found is the one the job was issued for, and the conversation has waited long enough. */
  lemma DueRow(s: State, j: Queued, r: int, h: int)
    requires Consistent(s) && j in s.issued && Due(s, j)
    ensures var key := Key(j.rule, j.conversation);
            && key in s.rows && s.rows[key].id == j.id
            && s.rows[key].status.Pending? && s.rows[key].scheduledFor == j.due
            && (forall l :: l in s.rows ==> (s.rows[l].id == j.id <==> l == key))
  {
    var k :| k in s.rows && s.rows[k].id == j.id && s.rows[k].status.Pending?;
    assert k == Key(j.rule, j.conversation);
  }

  lemma FireKeepsMatch(s: State, j: Queued, r: int, h: int)
    requires Consistent(s) && RemindersMatch(s, r, h) && AllDue(s.log, r, h)
    requires j in s.issued && Due(s, j) && j.due <= s.now
    ensures RemindersMatch(Fire(s, j), r, h) && AllDue(Fire(s, j).log, r, h)
  {
    DueRow(s, j, r, h);
    hide Consistent, AllDue;
    MatchAppend(s, Fire(s, j), Fired(j.rule, j.conversation, s.now), r, h);
    assert Reminds(s, j.rule, j.conversation, h) == Since(j.due - h);
    DueAppend(s.log, Fired(j.rule, j.conversation, s.now), r, h);
  }

  ghost predicate Good(s: State, r: int, h: int) {
    Consistent(s) && RemindersMatch(s, r, h) && AllDue(s.log, r, h)
  }

  lemma FireKeepsConsistent(s: State, j: Queued)
    requires Consistent(s)
    ensures Consistent(Fire(s, j))
  {
  }

  lemma DeliverKeepsGood(s: State, e: Event, r: int, h: int)
    requires Good(s, r, h) && e.Deliver?
    ensures Good(Step(s, e), r, h)
  {
    var key := Key(e.job.rule, e.job.conversation);
    var t := Tick(s, e.at);
    var m := if key in t.queue && t.queue[key] == e.job then t.(queue := t.queue - {key}) else t;
    assert Consistent(m) && m.log == s.log;
    assert RemindersMatch(m, r, h) by {
      forall c ensures Reminds(m, r, c, h) == Waiting(m.log, r, c) {
        assert Reminds(s, r, c, h) == Waiting(s.log, r, c);
      }
    }
    assert t == t.(queue := t.queue) && RemindersMatch(t, r, h) by {
      forall c ensures Reminds(t, r, c, h) == Waiting(t.log, r, c) {
        assert Reminds(s, r, c, h) == Waiting(s.log, r, c);
      }
    }
    if e.job in t.issued && t.now >= e.job.due && Due(m, e.job) {
      FireKeepsMatch(m, e.job, r, h);
      FireKeepsConsistent(m, e.job);
    }
    hide RemindersMatch, AllDue, Due;
  }

  lemma LoseKeepsGood(s: State, e: Event, r: int, h: int)
    requires Good(s, r, h) && e.Lose?
    ensures Good(Step(s, e), r, h)
  {
    var u := Step(s, e);
    forall c ensures Reminds(u, r, c, h) == Waiting(u.log, r, c) { assert Reminds(s, r, c, h) == Waiting(s.log, r, c); }
  }

  lemma OutboundKeepsConsistent(s: State, e: Event)
    requires Consistent(s) && e.Outbound?
    ensures Consistent(Step(s, e))
  {
  }

  lemma StepKeepsGood(s: State, e: Event, r: int, h: int)
    requires Good(s, r, h) && Steady(e, r, h) && h != 0
    ensures Good(Step(s, e), r, h)
  {
    hide Consistent, RemindersMatch, AllDue, ScheduleAll, Cancelling, PendingKeys, Steady;
    match e
    case Deliver(_, _) => DeliverKeepsGood(s, e, r, h);
    case Lose(_) => LoseKeepsGood(s, e, r, h);
    case Inbound(c, rules, at) =>
      InboundKeepsMatch(s, e, r, h);
      InboundLog(s, e);
      DueAppend(s.log, In(c, Tick(s, at).now), r, h);
    case Outbound(c, at) =>
      OutboundKeepsConsistent(s, e);
      OutboundKeepsMatch(s, e, r, h);
      DueAppend(s.log, Out(c, Tick(s, at).now), r, h);
  }

  lemma InboundLog(s: State, e: Event)
    requires e.Inbound? && Consistent(s)
    ensures Step(s, e).log == s.log + [In(e.conversation, Max(s.now, e.at))]
  {
    var t := Tick(s, e.at);
    var m := t.(log := t.log + [In(e.conversation, t.now)]);
    assert Consistent(m);
    ScheduleAllKeeps(m, e.rules, e.conversation);
  }

  lemma {:induction false} RunKeepsGood(s: State, es: seq<Event>, r: int, h: int)
    requires Good(s, r, h) && h != 0 && forall i :: 0 <= i < |es| ==> Steady(es[i], r, h)
    ensures Good(Run(s, es), r, h)
    decreases es
  {
    if es == [] {
    } else {
      StepKeepsGood(s, es[0], r, h);
      hide Good, Step, Steady;
      RunKeepsGood(Step(s, es[0]), es[1..], r, h);
    }
  }

  /**
   * Whatever the queue loses, keeps or delivers twice: whenever the rule's trigger is executed for a conversation, an
   * inbound message came in at least `h` earlier, and since then nothing came in or went out and the rule was not
   * triggered.
   */
  lemma EveryReminderIsJustified(es: seq<Event>, r: int, h: int, k: nat)
    requires h != 0 && forall i :: 0 <= i < |es| ==> Steady(es[i], r, h)
    requires k < |Run(INITIAL, es).log| && Run(INITIAL, es).log[k].Fired? && Run(INITIAL, es).log[k].rule == r
    ensures var log := Run(INITIAL, es).log;
            exists i: nat, u :: u + h <= log[k].at && Unanswered(log[..k], r, log[k].conversation, i, u)
  {
    RunKeepsGood(INITIAL, es, r, h);
    var log := Run(INITIAL, es).log;
    hide Run, Steady, Unanswered, Mine;
    assert IsDue(log, k, h);
    var u := Waiting(log[..k], r, log[k].conversation).at;
    WaitingIsUnanswered(log[..k], r, log[k].conversation, u);
    var i: nat :| Unanswered(log[..k], r, log[k].conversation, i, u);
  }

  // ---------- with a queue that loses nothing ----------

  /** Every pending row has its job in the queue. */
  ghost predicate Backed(s: State) {
    forall k :: k in s.rows && s.rows[k].status.Pending? ==>
      k in s.queue && s.queue[k] in s.issued && s.queue[k].id == s.rows[k].id
  }

  lemma {:induction false} ScheduleAllBacked(s: State, rules: seq<Rule>, c: int)
    requires Backed(s)
    ensures Backed(ScheduleAll(s, rules, c))
    decreases rules
  {
    if rules == [] {
    } else {
      ScheduleAllBacked(ScheduleOne(s, rules[0], c), rules[1..], c);
    }
  }

  lemma StepKeepsBacked(s: State, e: Event)
    requires Backed(s) && Consistent(s) && !e.Lose?
    ensures Backed(Step(s, e))
  {
    if e.Inbound? {
      var t := Tick(s, e.at);
      ScheduleAllBacked(t.(log := t.log + [In(e.conversation, t.now)]), e.rules, e.conversation);
      hide Consistent;
    }
  }

  lemma {:induction false} RunKeepsBacked(s: State, es: seq<Event>, r: int, h: int)
    requires Backed(s) && Good(s, r, h) && h != 0
    requires forall i :: 0 <= i < |es| ==> Steady(es[i], r, h) && !es[i].Lose?
    ensures Backed(Run(s, es))
    decreases es
  {
    if es == [] {
    } else {
      StepKeepsGood(s, es[0], r, h);
      StepKeepsBacked(s, es[0]);
      hide Good, Step, Steady, Backed, Consistent;
      RunKeepsBacked(Step(s, es[0]), es[1..], r, h);
    }
  }

  /** No unanswered message is forgotten: its job waits in the queue, and delivered when due executes the trigger. */
  lemma UnansweredIsReminded(es: seq<Event>, r: int, h: int, c: int, i: nat, u: int, at: int)
    requires h != 0 && forall i :: 0 <= i < |es| ==> Steady(es[i], r, h) && !es[i].Lose?
    requires Unanswered(Run(INITIAL, es).log, r, c, i, u) && u + h <= at
    ensures var s := Run(INITIAL, es);
            && Key(r, c) in s.queue
            && Step(s, Deliver(s.queue[Key(r, c)], at)).log == s.log + [Fired(r, c, Max(s.now, at))]
  {
    hide *;
    StartIsGood(r, h);
    RunKeepsGood(INITIAL, es, r, h);
    RunKeepsBacked(INITIAL, es, r, h);
    WaitingIsReminded(Run(INITIAL, es), r, h, c, i, u, at);
  }

  lemma StartIsGood(r: int, h: int)
    ensures Good(INITIAL, r, h) && Backed(INITIAL)
  {
  }

  lemma WaitingIsReminded(s: State, r: int, h: int, c: int, i: nat, u: int, at: int)
    requires Good(s, r, h) && Backed(s) && Unanswered(s.log, r, c, i, u) && u + h <= at
    ensures Key(r, c) in s.queue
    ensures Step(s, Deliver(s.queue[Key(r, c)], at)).log == s.log + [Fired(r, c, Max(s.now, at))]
  {
    hide Waiting, Unanswered, Step, Backed, Consistent, AllDue;
    WaitingIsUnanswered(s.log, r, c, u);
    assert Reminds(s, r, c, h) == Since(u);
    BackedJobFires(s, r, c, u + h, at);
  }

  lemma BackedJobFires(s: State, r: int, c: int, due: int, at: int)
    requires Backed(s) && Consistent(s) && due <= at
    requires Key(r, c) in s.rows && s.rows[Key(r, c)].status.Pending? && s.rows[Key(r, c)].scheduledFor == due
    ensures Key(r, c) in s.queue
    ensures Step(s, Deliver(s.queue[Key(r, c)], at)).log == s.log + [Fired(r, c, Max(s.now, at))]
  {
    var j := s.queue[Key(r, c)];
    assert s.rows[Key(r, c)].id == j.id && j in s.issued;
    assert j.rule == r && j.conversation == c && j.due == due;
  }

  // ---------- the service ----------

  class SchedulerService {
    var rows: map<Key, Job>
    var queue: map<Key, Queued>
    var issued: set<Queued>
    var next: int
    var now: int
    var log: seq<Entry>

    ghost function Contents(): State
      reads this
    {
      State(rows, queue, issued, next, now, log)
    }

    constructor ()
      ensures Contents() == INITIAL
    {
      rows, queue, issued, next, now, log := map[], map[], {}, 0, 0, [];
    }

    method ScheduleNoReplyRules(rules: seq<Rule>, c: int)
      modifies this
      ensures Contents() == ScheduleAll(old(Contents()), rules, c)
    {
      var i := 0;
      while i < |rules|
        invariant 0 <= i <= |rules|
        invariant ScheduleAll(Contents(), rules[i..], c) == ScheduleAll(old(Contents()), rules, c)
      {
        var rule := rules[i];
        assert rules[i..][0] == rule && rules[i..][1..] == rules[i + 1..];
        i := i + 1;
        if rule.delay == 0 { continue; }
        var scheduledJobId, scheduledFor := next, now + rule.delay;
        next := next + 1;
        rows := rows[Key(rule.id, c) := Job(scheduledJobId, scheduledFor, Pending)];
        ghost var before := queue;
        queue := queue - {Key(rule.id, c)};
        var job := Queued(scheduledJobId, rule.id, c, scheduledFor);
        queue := queue[Key(rule.id, c) := job];
        assert queue == before[Key(rule.id, c) := job];
        issued := issued + {job};
      }
    }

    method CancelNoReplyRules(c: int)
      modifies this
      ensures Contents() == CancelAll(old(Contents()), c)
    {
      var pending := set k | k in rows && k.conversation == c && rows[k].status.Pending?;
      var rest := pending;
      while rest != {}
        invariant rest <= pending
        invariant rows == Cancelling(old(rows), pending - rest)
        invariant queue == old(queue) - (pending - rest)
        invariant issued == old(issued) && next == old(next) && now == old(now) && log == old(log)
        decreases rest
      {
        var k :| k in rest;
        queue := queue - {k};
        rows := rows[k := rows[k].(status := Cancelled)];
        rest := rest - {k};
      }
      assert pending - rest == PendingKeys(old(rows), c);
    }

    method FireJob(j: Queued)
      modifies this
      ensures Contents() == Fire(old(Contents()), j)
    {
      if !exists k :: k in rows && rows[k].id == j.id && rows[k].status.Pending? { return; }
      rows := map k | k in rows :: if rows[k].id == j.id then rows[k].(status := Completed) else rows[k];
      log := log + [Fired(j.rule, j.conversation, now)];
    }
  }
}
