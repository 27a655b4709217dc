/**
 * Ingestion of delivered messages: identity resolution, the conversation upsert, deduplication, priority scoring
 * and what is triggered once per stored message.
 */
module Ingestion {
  import opened Basics
  import opened Text
  import opened IdentityGraph

  // ---------- priority score ----------

  const URGENCY_KEYWORDS: seq<string> := ["urgent", "asap", "important", "emergency", "immediately"]

  const BASE_SCORE := 10
  const VIP_BONUS := 50
  const URGENCY_BONUS := 20

  predicate ContainsUrgencyKeyword(body: string) {
    exists j :: 0 <= j < |URGENCY_KEYWORDS| && Includes(Lower(body), URGENCY_KEYWORDS[j])
  }

  function Score(isVip: bool, body: string): int {
    BASE_SCORE + (if isVip then VIP_BONUS else 0) + (if ContainsUrgencyKeyword(body) then URGENCY_BONUS else 0)
  }

  const NEEDS_YOU_PRIORITY_THRESHOLD := 30

  /**
   * The score tells both signals apart, a VIP outweighs any wording, a message reaches the "needs you" threshold
   * exactly with one of the signals, and any message exceeds the score of a conversation without messages.
   */
  lemma ScoreExplains(v: bool, a: string, w: bool, b: string)
    ensures Score(v, a) == Score(w, b) <==> v == w && ContainsUrgencyKeyword(a) == ContainsUrgencyKeyword(b)
    ensures v && !w ==> Score(v, a) > Score(w, b)
    ensures Score(v, a) >= NEEDS_YOU_PRIORITY_THRESHOLD <==> v || ContainsUrgencyKeyword(a)
    ensures Score(v, a) > 0
    ensures Score(v, a) == (if v then 60 else 10) + (if ContainsUrgencyKeyword(a) then 20 else 0)
  {
  }

  /** A text is urgent exactly if a keyword stands in it somewhere, in whatever capitals. */
  lemma UrgentIff(body: string)
    ensures ContainsUrgencyKeyword(body) <==>
              exists before, word, after ::
                Around(body, before, word, after)
                && Lower(word) in ["urgent", "asap", "important", "emergency", "immediately"]
  {
    if ContainsUrgencyKeyword(body) {
      var j :| 0 <= j < |URGENCY_KEYWORDS| && Includes(Lower(body), URGENCY_KEYWORDS[j]);
      var i :| 0 <= i <= |body| && OccursAt(Lower(body), URGENCY_KEYWORDS[j], i);
      var n := i + |URGENCY_KEYWORDS[j]|;
      assert Lower(body[i..n]) == Lower(body)[i..n];
      assert Around(body, body[..i], body[i..n], body[n..]);
    }
    forall before, word, after | Around(body, before, word, after) && Lower(word) in URGENCY_KEYWORDS
      ensures ContainsUrgencyKeyword(body)
    {
      KeywordIsFound(before, word, after);
    }
  }

  /** A keyword is found in any spelling of capitals and anywhere in the text. */
  lemma KeywordIsFound(before: string, word: string, after: string)
    requires Lower(word) in URGENCY_KEYWORDS
    ensures ContainsUrgencyKeyword(before + word + after)
  {
    var body := before + word + after;
    var j :| 0 <= j < |URGENCY_KEYWORDS| && URGENCY_KEYWORDS[j] == Lower(word);
    assert Lower(body)[|before|..|before| + |word|] == Lower(word);
    assert OccursAt(Lower(body), URGENCY_KEYWORDS[j], |before|);
  }

  // ---------- state ----------

  datatype Delivery = Delivery(
    thread: Thread, messageId: string, senderId: string, name: string, inbound: bool, body: string, receivedAt: int)

  function KeyOf(d: Delivery): MessageKey { MessageKey(d.thread, d.messageId) }

  function SenderOf(d: Delivery): Identity { Identity(d.thread.provider, d.senderId) }

  datatype Conversation = Conversation(lastMessageAt: int, priorityScore: int)

  datatype Emission = Emission(key: MessageKey, score: int)

  /** What the no-reply scheduler is asked: restart the clock after an inbound message, cancel after any other. */
  datatype SchedulerCall = Restart(thread: Thread) | Cancel(thread: Thread)

  /** How far the handler gets before the process dies; `Scheduled` is all the way. */
  datatype Stage = Resolving | Upserted | Stored | Scored | Emitted | Automated | Scheduled

  function Rank(s: Stage): nat {
    match s
    case Resolving => 0
    case Upserted => 1
    case Stored => 2
    case Scored => 3
    case Emitted => 4
    case Automated => 5
    case Scheduled => 6
  }

  predicate Past(reached: Stage, s: Stage) { Rank(s) <= Rank(reached) }

  /** The stages come in this order, and each includes those before it. */
  lemma StagesInOrder(i: nat, j: nat)
    requires i < 7 && j < 7
    ensures var stages := [Resolving, Upserted, Stored, Scored, Emitted, Automated, Scheduled];
            Past(stages[i], stages[j]) <==> j <= i
  {
    var stages := [Resolving, Upserted, Stored, Scored, Emitted, Automated, Scheduled];
    assert forall k :: 0 <= k < 7 ==> Rank(stages[k]) == k;
  }

  /** The delivery that stored a message: the score it gave it, and how far it got. */
  datatype Record = Record(key: MessageKey, score: int, reached: Stage)

  /** `records` and `handled`, the messages that got to their scheduler call, only remember what happened. */
  datatype Pipeline = Pipeline(
    graph: Graph,
    conversations: map<Thread, Conversation>,
    emitted: seq<Emission>,
    automated: seq<MessageKey>,
    scheduled: seq<SchedulerCall>,
    records: seq<Record>,
    handled: seq<MessageKey>)

  function CallFor(thread: Thread, inbound: bool): SchedulerCall {
    if inbound then Restart(thread) else Cancel(thread)
  }

  function ScoreOf(p: Pipeline, t: Thread): int {
    if t in p.conversations then p.conversations[t].priorityScore else 0
  }

  /** A sender nobody knows yet becomes a contact that is not a VIP. */
  function VipOf(g: Graph, id: Identity): bool {
    id in g.owner && g.owner[id] in g.contacts && g.contacts[g.owner[id]].isVip
  }

  /** The part of the handler past the early return for duplicates. */
  function StoreTo(p: Pipeline, d: Delivery, contact: int, isVip: bool, read: Conversation, to: Stage): Pipeline {
    var key := KeyOf(d);
    var score := Score(isVip, d.body);
    Pipeline(
      Store(p.graph, key, Message(By(contact), d.inbound, d.body, d.receivedAt)),
      if Past(to, Scored) then p.conversations[d.thread := read.(priorityScore := Max(read.priorityScore, score))]
      else p.conversations,
      if Past(to, Emitted) then p.emitted + [Emission(key, score)] else p.emitted,
      if Past(to, Automated) then p.automated + [key] else p.automated,
      if Past(to, Scheduled) then p.scheduled + [CallFor(d.thread, d.inbound)] else p.scheduled,
      p.records + [Record(key, score, to)],
      if Past(to, Scheduled) then p.handled + [key] else p.handled)
  }

  /** `handleMessageReceived` up to a stage. */
  function IngestTo(p: Pipeline, d: Delivery, to: Stage): Pipeline {
    var r := Resolve(p.graph, SenderOf(d), d.name);
    var read := Conversation(d.receivedAt, ScoreOf(p, d.thread));
    var resolved := p.(graph := r.graph);
    var touched := resolved.(conversations := p.conversations[d.thread := read]);
    if !Past(to, Upserted) then resolved
    else if !Past(to, Stored) || KeyOf(d) in p.graph.messages then touched
    else StoreTo(touched, d, r.contact, VipOf(p.graph, SenderOf(d)), read, to)
  }

  function Ingest(p: Pipeline, d: Delivery): Pipeline { IngestTo(p, d, Scheduled) }

  /** `MessageSendService.send`, after the provider has accepted the message. */
  function Sent(p: Pipeline, key: MessageKey, body: string, now: int): Pipeline {
    if key.thread !in p.conversations || key in p.graph.messages then p
    else
      p.(graph := Store(p.graph, key, Message(Nobody, false, body, now)),
         conversations := p.conversations[key.thread := p.conversations[key.thread].(lastMessageAt := now)],
         scheduled := p.scheduled + [Cancel(key.thread)],
         handled := p.handled + [key])
  }

  /** A `Crash` is a delivery whose handler dies after the given stage; the queue may deliver it again. */
  datatype Action =
    | Deliver(d: Delivery)
    | Crash(d: Delivery, reached: Stage)
    | Reply(key: MessageKey, body: string, now: int)
    | MergeContacts(a: int, b: int)
    | SplitIdentities(contact: int, ids: set<Identity>)
    | MarkContact(contact: int, vip: bool)

  function Act(p: Pipeline, a: Action): Pipeline {
    match a
    case Deliver(d) => Ingest(p, d)
    case Crash(d, reached) => IngestTo(p, d, reached)
    case Reply(key, body, now) => Sent(p, key, body, now)
    case MergeContacts(x, y) => p.(graph := Step(p.graph, Merge(x, y)))
    case SplitIdentities(c, ids) => p.(graph := Step(p.graph, SplitContact(c, ids)))
    case MarkContact(c, vip) => p.(graph := Step(p.graph, MarkVip(c, vip)))
  }

  function Acts(p: Pipeline, es: seq<Action>): Pipeline
    decreases es
  {
    if es == [] then p else Acts(Act(p, es[0]), es[1..])
  }

  lemma {:induction false} ActsConcat(p: Pipeline, a: seq<Action>, b: seq<Action>)
    ensures Acts(p, a + b) == Acts(Acts(p, a), b)
    decreases a
  {
    hide Act;
    if a == [] {
      assert a + b == b;
    } else {
      assert (a + b)[0] == a[0] && (a + b)[1..] == a[1..] + b;
      ActsConcat(Act(p, a[0]), a[1..], b);
    }
  }

  const START: Pipeline := Pipeline(EMPTY, map[], [], [], [], [], [])

  // ---------- once per stored message ----------

  /** Every received message has one record. */
  ghost predicate Recorded(p: Pipeline) {
    && (forall i, j :: 0 <= i < j < |p.records| ==> p.records[i].key != p.records[j].key)
    && (forall r :: r in p.records ==> r.key in p.graph.messages && p.graph.messages[r.key].sender.By?)
    && (forall k :: k in p.graph.messages && p.graph.messages[k].sender.By? ==>
          exists r :: r in p.records && r.key == k)
  }

  /** The messages whose delivery got past a stage, in the order they were stored. */
  function Reaching(rs: seq<Record>, s: Stage): seq<MessageKey> {
    if rs == [] then []
    else
      var r := rs[|rs| - 1];
      Reaching(rs[..|rs| - 1], s) + if Past(r.reached, s) then [r.key] else []
  }

  /** The messages announced in real time, each with the score it was given. */
  function Announcing(rs: seq<Record>): seq<Emission> {
    if rs == [] then []
    else
      var r := rs[|rs| - 1];
      Announcing(rs[..|rs| - 1]) + if Past(r.reached, Emitted) then [Emission(r.key, r.score)] else []
  }

  /** Emissions and automation runs are those of the deliveries that got that far. */
  ghost predicate Triggered(p: Pipeline) {
    p.automated == Reaching(p.records, Automated) && p.emitted == Announcing(p.records)
  }

  /** A conversation's score is the highest that was given and raised, and 0 as long as there is none. */
  ghost predicate HighestScore(p: Pipeline) {
    && (forall r :: r in p.records && Past(r.reached, Scored) ==>
          r.key.thread in p.conversations && r.score <= ScoreOf(p, r.key.thread))
    && (forall t :: ScoreOf(p, t) == 0
          || exists r :: r in p.records && Past(r.reached, Scored) && r.key.thread == t && r.score == ScoreOf(p, t))
    && (forall t :: ScoreOf(p, t) >= 0)
  }

  /** The scheduler was called once for each handled message, to restart for an inbound one and to cancel otherwise. */
  ghost predicate Asked(p: Pipeline) {
    && |p.scheduled| == |p.handled|
    && forall i :: 0 <= i < |p.handled| ==>
         && p.handled[i] in p.graph.messages
         && p.scheduled[i].thread == p.handled[i].thread
         && (p.scheduled[i].Restart? <==> p.graph.messages[p.handled[i]].inbound)
  }

  /** Handled are, once each, the replies and the messages whose delivery got all the way. */
  ghost predicate HandledOnce(p: Pipeline) {
    && Distinct(p.handled)
    && (forall k :: k in p.handled <==>
          || (k in p.graph.messages && p.graph.messages[k].sender.Nobody?)
          || exists r :: r in p.records && r.key == k && Past(r.reached, Scheduled))
  }

  ghost predicate Sound(p: Pipeline) {
    Valid(p.graph) && Recorded(p) && Triggered(p) && HighestScore(p) && Asked(p) && HandledOnce(p)
  }

  lemma GraphOnlyMovesSenders(g: Graph, e: Event)
    requires e.Merge? || e.SplitContact? || e.MarkVip?
    ensures var u := Step(g, e);
            && u.messages.Keys == g.messages.Keys && u.owner.Keys == g.owner.Keys
            && (forall k :: k in g.messages ==> u.messages[k].sender.By? == g.messages[k].sender.By?)
            && (forall k :: k in g.messages ==>
                  && u.messages[k].inbound == g.messages[k].inbound
                  && u.messages[k].body == g.messages[k].body && u.messages[k].receivedAt == g.messages[k].receivedAt)
  {
  }

  /** A delivery either stores nothing, or adds the record of the message it stores. */
  lemma IngestRecords(p: Pipeline, d: Delivery, to: Stage)
    ensures var u := IngestTo(p, d, to);
            if Past(to, Stored) && KeyOf(d) !in p.graph.messages then
              && u.records == p.records + [Record(KeyOf(d), DeliveredScore(p.graph, d), to)]
              && u.graph.messages.Keys == p.graph.messages.Keys + {KeyOf(d)}
              && SenderOf(d) in u.graph.owner
              && u.graph.messages[KeyOf(d)] ==
                   Message(By(u.graph.owner[SenderOf(d)]), d.inbound, d.body, d.receivedAt)
              && (forall k :: k in p.graph.messages ==> u.graph.messages[k] == p.graph.messages[k])
            else u.records == p.records && u.graph.messages == p.graph.messages
  {
    hide Score, VipOf;
    assert Resolve(p.graph, SenderOf(d), d.name).graph.messages == p.graph.messages;
  }

  lemma IngestKeepsRecorded(p: Pipeline, d: Delivery, to: Stage)
    requires Recorded(p)
    ensures Recorded(IngestTo(p, d, to))
  {
    IngestRecords(p, d, to);
    hide IngestTo, DeliveredScore, Past;
    var u := IngestTo(p, d, to);
    if u.records != p.records {
      var last := u.records[|p.records|];
      assert last in u.records;
      forall r | r in u.records ensures r in p.records || r == last { }
      forall k | k in u.graph.messages && u.graph.messages[k].sender.By?
        ensures exists r :: r in u.records && r.key == k
      {
        if k != KeyOf(d) {
          var r :| r in p.records && r.key == k;
          assert r in u.records;
        }
      }
    }
  }

  lemma ReachingLonger(rs: seq<Record>, r: Record, s: Stage)
    ensures Reaching(rs + [r], s) == Reaching(rs, s) + if Past(r.reached, s) then [r.key] else []
  {
    assert (rs + [r])[..|rs|] == rs;
  }

  lemma AnnouncingLonger(rs: seq<Record>, r: Record)
    ensures Announcing(rs + [r]) ==
              Announcing(rs) + if Past(r.reached, Emitted) then [Emission(r.key, r.score)] else []
  {
    assert (rs + [r])[..|rs|] == rs;
  }

  lemma IngestKeepsTriggered(p: Pipeline, d: Delivery, to: Stage)
    requires Triggered(p)
    ensures Triggered(IngestTo(p, d, to))
  {
    hide Resolve, Store, VipOf, Score, Reaching, Announcing;
    var u := IngestTo(p, d, to);
    if Past(to, Stored) && KeyOf(d) !in p.graph.messages {
      var r := Record(KeyOf(d), DeliveredScore(p.graph, d), to);
      assert u.records == p.records + [r];
      ReachingLonger(p.records, r, Automated);
      AnnouncingLonger(p.records, r);
      assert p.automated + [] == p.automated && p.emitted + [] == p.emitted;
    }
  }

  lemma IngestScores(p: Pipeline, d: Delivery, to: Stage, t: Thread)
    ensures var u := IngestTo(p, d, to);
            && p.conversations.Keys <= u.conversations.Keys
            && (Past(to, Upserted) ==> d.thread in u.conversations)
            && ScoreOf(u, t) == (
                 if t == d.thread && Past(to, Scored) && KeyOf(d) !in p.graph.messages
                 then Max(ScoreOf(p, t), DeliveredScore(p.graph, d)) else ScoreOf(p, t))
  {
    hide Resolve, Store, VipOf, Score;
  }

  lemma IngestKeepsHighest(p: Pipeline, d: Delivery, to: Stage)
    requires HighestScore(p)
    ensures HighestScore(IngestTo(p, d, to))
  {
    var u := IngestTo(p, d, to);
    IngestScores(p, d, to, d.thread);
    IngestRecords(p, d, to);
    ScoreExplains(VipOf(p.graph, SenderOf(d)), d.body, true, "");
    assert DeliveredScore(p.graph, d) > 0;
    hide IngestTo, DeliveredScore;
    forall r | r in u.records && Past(r.reached, Scored)
      ensures r.key.thread in u.conversations && r.score <= ScoreOf(u, r.key.thread)
    {
      IngestScores(p, d, to, r.key.thread);
    }
    forall t
      ensures ScoreOf(u, t) >= 0
      ensures ScoreOf(u, t) == 0
        || exists r :: r in u.records && Past(r.reached, Scored) && r.key.thread == t && r.score == ScoreOf(u, t)
    {
      IngestScores(p, d, to, t);
      if ScoreOf(u, t) == ScoreOf(p, t) && ScoreOf(p, t) != 0 {
        var r :| r in p.records && Past(r.reached, Scored) && r.key.thread == t && r.score == ScoreOf(p, t);
        assert r in u.records;
      } else if ScoreOf(u, t) != ScoreOf(p, t) {
        assert u.records[|p.records|] in u.records;
      }
    }
  }

  lemma IngestAsks(p: Pipeline, d: Delivery, to: Stage)
    ensures var u := IngestTo(p, d, to);
            if Past(to, Scheduled) && KeyOf(d) !in p.graph.messages then
              && u.handled == p.handled + [KeyOf(d)]
              && u.scheduled == p.scheduled + [if d.inbound then Restart(d.thread) else Cancel(d.thread)]
            else u.handled == p.handled && u.scheduled == p.scheduled
  {
    hide Resolve, Store, VipOf, Score;
  }

  lemma IngestKeepsAsked(p: Pipeline, d: Delivery, to: Stage)
    requires Asked(p)
    ensures Asked(IngestTo(p, d, to))
  {
    IngestRecords(p, d, to);
    IngestAsks(p, d, to);
    hide IngestTo, DeliveredScore;
  }

  lemma IngestKeepsHandledOnce(p: Pipeline, d: Delivery, to: Stage)
    requires Recorded(p) && Asked(p) && HandledOnce(p)
    ensures HandledOnce(IngestTo(p, d, to))
  {
    IngestRecords(p, d, to);
    IngestAsks(p, d, to);
    hide IngestTo, DeliveredScore;
    var u := IngestTo(p, d, to);
    if Past(to, Stored) && KeyOf(d) !in p.graph.messages {
      var last := u.records[|p.records|];
      assert last.key == KeyOf(d) && last.reached == to && last in u.records;
      assert forall r :: r in u.records <==> r in p.records || r == last;
      forall k | k in p.handled ensures k != KeyOf(d) { assert k in p.graph.messages; }
      forall k ensures k in u.handled <==>
          || (k in u.graph.messages && u.graph.messages[k].sender.Nobody?)
          || exists r :: r in u.records && r.key == k && Past(r.reached, Scheduled)
      {
        assert k in u.handled <==> k in p.handled || (k == KeyOf(d) && Past(to, Scheduled));
        assert k in u.graph.messages <==> k in p.graph.messages || k == KeyOf(d);
      }
    }
  }

  /** The graph sees a delivery as its own receive step, or, before the message is stored, as resolving its sender. */
  lemma IngestKeepsGraph(p: Pipeline, d: Delivery, to: Stage)
    requires Valid(p.graph)
    ensures Valid(IngestTo(p, d, to).graph)
    ensures Past(to, Stored) ==>
              IngestTo(p, d, to).graph ==
                Step(p.graph, Receive(KeyOf(d), d.senderId, d.name, d.inbound, d.body, d.receivedAt))
  {
    StepKeepsValid(p.graph, Receive(KeyOf(d), d.senderId, d.name, d.inbound, d.body, d.receivedAt));
    ResolveKeepsValid(p.graph, SenderOf(d), d.name);
    hide Score, Valid;
  }

  /** Changes to who sent what, and nothing else. */
  ghost predicate OnlySenders(g: Graph, u: Graph) {
    && u.messages.Keys == g.messages.Keys
    && (forall k :: k in g.messages ==>
          u.messages[k].sender.By? == g.messages[k].sender.By? && u.messages[k].inbound == g.messages[k].inbound)
  }

  lemma RearrangedKeepsRecorded(p: Pipeline, g: Graph)
    requires Recorded(p) && Triggered(p) && HighestScore(p) && OnlySenders(p.graph, g)
    ensures var u := p.(graph := g); Recorded(u) && Triggered(u) && HighestScore(u)
  {
    hide Reaching, Announcing;
    var u := p.(graph := g);
    assert forall t :: ScoreOf(u, t) == ScoreOf(p, t);
  }

  lemma RearrangedKeepsAsked(p: Pipeline, g: Graph)
    requires Asked(p) && HandledOnce(p) && OnlySenders(p.graph, g)
    ensures var u := p.(graph := g); Asked(u) && HandledOnce(u)
  {
    var u := p.(graph := g);
    assert forall k :: k in g.messages ==> g.messages[k].sender.Nobody? == p.graph.messages[k].sender.Nobody?;
  }

  lemma RearrangedKeepsSound(p: Pipeline, e: Event)
    requires Sound(p) && (e.Merge? || e.SplitContact? || e.MarkVip?)
    ensures Sound(p.(graph := Step(p.graph, e)))
  {
    GraphOnlyMovesSenders(p.graph, e);
    StepKeepsValid(p.graph, e);
    hide Step, Valid, Recorded, Triggered, HighestScore, Asked, HandledOnce;
    RearrangedKeepsRecorded(p, Step(p.graph, e));
    RearrangedKeepsAsked(p, Step(p.graph, e));
  }

  lemma ReplyKeepsRecorded(p: Pipeline, key: MessageKey, body: string, now: int)
    requires Recorded(p) && Triggered(p) && HighestScore(p)
    ensures var u := Sent(p, key, body, now); Recorded(u) && Triggered(u) && HighestScore(u)
  {
    hide Reaching, Announcing;
    var u := Sent(p, key, body, now);
    assert forall t :: ScoreOf(u, t) == ScoreOf(p, t);
  }

  lemma ReplyKeepsAsked(p: Pipeline, key: MessageKey, body: string, now: int)
    requires Asked(p)
    ensures Asked(Sent(p, key, body, now))
  {
    ReplyMeaning(p, key, body, now);
    hide Sent;
  }

  lemma ReplyKeepsSound(p: Pipeline, key: MessageKey, body: string, now: int)
    requires Sound(p)
    ensures Sound(Sent(p, key, body, now))
  {
    hide Valid, Recorded, Triggered, HighestScore, Asked, HandledOnce;
    StoreKeepsValid(p.graph, key, Message(Nobody, false, body, now));
    ReplyKeepsRecorded(p, key, body, now);
    ReplyKeepsAsked(p, key, body, now);
    ReplyKeepsHandledOnce(p, key, body, now);
  }

  /** An accepted reply is stored as an outbound message, dates its conversation and has its reminders cancelled. */
  lemma ReplyMeaning(p: Pipeline, key: MessageKey, body: string, now: int)
    ensures var u := Sent(p, key, body, now);
            if key.thread in p.conversations && key !in p.graph.messages then
              && u.graph.messages == p.graph.messages[key := Message(Nobody, false, body, now)]
              && u.conversations[key.thread] == p.conversations[key.thread].(lastMessageAt := now)
              && u.scheduled == p.scheduled + [Cancel(key.thread)] && u.handled == p.handled + [key]
              && u.records == p.records
              && u.graph == Step(p.graph, Send(key, body, now))
            else u == p
  {
  }

  lemma ReplyKeepsHandledOnce(p: Pipeline, key: MessageKey, body: string, now: int)
    requires Recorded(p) && Asked(p) && HandledOnce(p)
    ensures HandledOnce(Sent(p, key, body, now))
  {
    ReplyMeaning(p, key, body, now);
    hide Sent;
    var u := Sent(p, key, body, now);
    if u != p {
      forall k | k in p.handled ensures k != key { assert k in p.graph.messages; }
      assert forall k :: k in u.handled <==> k in p.handled || k == key;
      assert forall r :: r in p.records ==> r.key != key;
    }
  }

  lemma IngestKeepsSound(p: Pipeline, d: Delivery, to: Stage)
    requires Sound(p)
    ensures Sound(IngestTo(p, d, to))
  {
    hide IngestTo, Valid, Recorded, Triggered, HighestScore, Asked, HandledOnce;
    IngestKeepsGraph(p, d, to);
    IngestKeepsRecorded(p, d, to);
    IngestKeepsTriggered(p, d, to);
    IngestKeepsHighest(p, d, to);
    IngestKeepsAsked(p, d, to);
    IngestKeepsHandledOnce(p, d, to);
  }

  lemma ActKeepsSound(p: Pipeline, a: Action)
    requires Sound(p)
    ensures Sound(Act(p, a))
  {
    match a
    case Deliver(d) => IngestKeepsSound(p, d, Scheduled);
    case Crash(d, reached) => IngestKeepsSound(p, d, reached);
    case Reply(key, body, now) => ReplyKeepsSound(p, key, body, now);
    case MergeContacts(x, y) => RearrangedKeepsSound(p, Merge(x, y));
    case SplitIdentities(c, ids) => RearrangedKeepsSound(p, SplitContact(c, ids));
    case MarkContact(c, vip) => RearrangedKeepsSound(p, MarkVip(c, vip));
  }

  lemma {:induction false} ActsKeepSound(p: Pipeline, es: seq<Action>)
    requires Sound(p)
    ensures Sound(Acts(p, es)) && p.records <= Acts(p, es).records
    decreases es
  {
    if es == [] {
    } else {
      ActKeepsSound(p, es[0]);
      ActKeepsRecords(p, es[0]);
      hide Act, Sound;
      ActsKeepSound(Act(p, es[0]), es[1..]);
    }
  }

  lemma ActKeepsRecords(p: Pipeline, a: Action)
    ensures p.records <= Act(p, a).records
  {
    if a.Deliver? { IngestRecords(p, a.d, Scheduled); }
    if a.Crash? { IngestRecords(p, a.d, a.reached); }
    hide IngestTo, DeliveredScore, Sent, Step;
    assert a.Reply? ==> Act(p, a).records == p.records by { if a.Reply? { SentRecords(p, a); } }
  }

  lemma SentRecords(p: Pipeline, a: Action)
    requires a.Reply?
    ensures Sent(p, a.key, a.body, a.now).records == p.records
  {
  }

  ghost predicate Distinct(keys: seq<MessageKey>) {
    forall i, j :: 0 <= i < j < |keys| ==> keys[i] != keys[j]
  }

  lemma {:induction false} ReachingIs(rs: seq<Record>, s: Stage)
    requires forall i, j :: 0 <= i < j < |rs| ==> rs[i].key != rs[j].key
    ensures Distinct(Reaching(rs, s))
    ensures forall k :: k in Reaching(rs, s) <==> exists r :: r in rs && r.key == k && Past(r.reached, s)
  {
    if rs == [] {
    } else {
      var n := |rs| - 1;
      var front := Reaching(rs[..n], s);
      ReachingIs(rs[..n], s);
      hide Past;
      assert rs == rs[..n] + [rs[n]];
      forall k ensures k in Reaching(rs, s) <==> exists r :: r in rs && r.key == k && Past(r.reached, s) {
        assert forall r :: r in rs <==> r in rs[..n] || r == rs[n];
      }
      forall i | 0 <= i < |front| ensures front[i] != rs[n].key {
        assert front[i] in front;
      }
    }
  }

  /**
   * Through any sequence of deliveries, crashes, replies, merges, splits and VIP changes: automation ran at most once
   * for each received message, and did run exactly if no crash fell between storing it and automating it; without
   * crashes each conversation's score is the highest its messages were given.
   */
  lemma EveryRunIsSound(es: seq<Action>)
    ensures var p := Acts(START, es);
            && Valid(p.graph) && Recorded(p) && HighestScore(p)
            && Distinct(p.automated)
            && p.emitted == Announcing(p.records)
            && (forall k :: k in p.automated <==>
                  exists r :: r in p.records && r.key == k && Past(r.reached, Automated))
  {
    assert Sound(START);
    ActsKeepSound(START, es);
    var p := Acts(START, es);
    ReachingIs(p.records, Automated);
  }

  /**
   * In every run the scheduler's calls answer the handled messages one by one: for each conversation the last call is
   * to restart the clock exactly if the last handled message there, delivered or sent, is an inbound one.
   */
  lemma LastCallFollowsLastMessage(es: seq<Action>, i: nat)
    requires var p := Acts(START, es);
             && i < |p.scheduled|
             && forall j :: i < j < |p.scheduled| ==> p.scheduled[j].thread != p.scheduled[i].thread
    ensures var p := Acts(START, es);
            && |p.handled| == |p.scheduled| && HandledOnce(p)
            && p.handled[i].thread == p.scheduled[i].thread
            && (forall j :: i < j < |p.handled| ==> p.handled[j].thread != p.handled[i].thread)
            && p.handled[i] in p.graph.messages
            && (p.scheduled[i].Restart? <==> p.graph.messages[p.handled[i]].inbound)
  {
    assert Sound(START);
    ActsKeepSound(START, es);
    hide HandledOnce, Recorded, Triggered, HighestScore;
  }

  /** A delivery that dies between storing and automating is never made good: its retries are taken for duplicates. */
  lemma CutOffIsNeverAutomated(before: seq<Action>, d: Delivery, reached: Stage, after: seq<Action>)
    requires Past(reached, Stored) && !Past(reached, Automated) && KeyOf(d) !in Acts(START, before).graph.messages
    ensures var p := Acts(Act(Acts(START, before), Crash(d, reached)), after);
            KeyOf(d) in p.graph.messages && KeyOf(d) !in p.automated
  {
    var s := Acts(START, before);
    var c := Act(s, Crash(d, reached));
    assert Sound(START);
    ActsKeepSound(START, before);
    ActKeepsSound(s, Crash(d, reached));
    ActsKeepSound(c, after);
    IngestRecords(s, d, reached);
    hide Act, Acts, HighestScore, IngestTo, Reaching, Valid, Asked, HandledOnce;
    CutOffRecord(c, Acts(c, after), |s.records|);
  }

  lemma CutOffRecord(c: Pipeline, p: Pipeline, i: nat)
    requires Recorded(p) && Triggered(p) && c.records <= p.records && i < |c.records|
    requires !Past(c.records[i].reached, Automated)
    ensures c.records[i].key in p.graph.messages && c.records[i].key !in p.automated
  {
    hide Past, Reaching, Announcing;
    ReachingIs(p.records, Automated);
    var cut := p.records[i];
    assert cut == c.records[i] && cut in p.records;
    forall r | r in p.records && r.key == cut.key ensures r == cut {
      var j :| 0 <= j < |p.records| && p.records[j] == r;
    }
  }

  /** A delivery that dies before its message is stored leaves no trace once it is delivered again. */
  lemma EarlyCrashIsMadeGood(p: Pipeline, d: Delivery, reached: Stage)
    requires Valid(p.graph) && !Past(reached, Stored)
    ensures Act(Act(p, Crash(d, reached)), Deliver(d)) == Act(p, Deliver(d))
  {
    var c := Act(p, Crash(d, reached));
    ResolveKeepsVip(p.graph, SenderOf(d), d.name, SenderOf(d));
    assert Resolve(c.graph, SenderOf(d), d.name) == Resolve(p.graph, SenderOf(d), d.name);
    hide Score, VipOf, Valid, Resolve;
    assert c.conversations[d.thread := Conversation(d.receivedAt, ScoreOf(p, d.thread))]
        == p.conversations[d.thread := Conversation(d.receivedAt, ScoreOf(p, d.thread))];
  }

  // ---------- duplicates and reordering ----------

  function Deliveries(p: Pipeline, ds: seq<Delivery>): Pipeline
    decreases ds
  {
    if ds == [] then p else Deliveries(Ingest(p, ds[0]), ds[1..])
  }

  /** A message is always delivered with the same sender and text. */
  ghost predicate Consistent(ds: set<Delivery>) {
    forall c, d :: c in ds && d in ds && KeyOf(c) == KeyOf(d) ==> SenderOf(c) == SenderOf(d) && c.body == d.body
  }

  function DeliveredScore(g: Graph, d: Delivery): int { Score(VipOf(g, SenderOf(d)), d.body) }

  /** `t`'s score is the highest among its old one and those of the newly delivered messages. */
  ghost predicate ScoredBy(p: Pipeline, ds: set<Delivery>, t: Thread, score: int) {
    && score >= ScoreOf(p, t)
    && (forall d :: d in ds && d.thread == t && KeyOf(d) !in p.graph.messages ==> DeliveredScore(p.graph, d) <= score)
    && (score == ScoreOf(p, t)
        || exists d :: d in ds && d.thread == t && KeyOf(d) !in p.graph.messages && DeliveredScore(p.graph, d) == score)
  }

  /** The state reached from `p`, as far as it depends on the set of deliveries alone. */
  ghost predicate ReachedBy(p: Pipeline, ds: set<Delivery>, u: Pipeline) {
    && u.graph.messages.Keys == p.graph.messages.Keys + (set d | d in ds :: KeyOf(d))
    && u.graph.owner.Keys == p.graph.owner.Keys + (set d | d in ds :: SenderOf(d))
    && u.conversations.Keys == p.conversations.Keys + (set d | d in ds :: d.thread)
    && (forall id :: VipOf(u.graph, id) == VipOf(p.graph, id))
    && (forall t :: ScoredBy(p, ds, t, ScoreOf(u, t)))
  }

  lemma ResolveKeepsVip(g: Graph, id: Identity, name: string, other: Identity)
    requires Valid(g)
    ensures VipOf(Resolve(g, id, name).graph, other) == VipOf(g, other)
  {
    if id !in g.owner && other in g.owner {
      assert Live(g, g.owner[other]);
    }
  }

  lemma ResolvedContact(g: Graph, id: Identity, name: string)
    requires Valid(g)
    ensures var r := Resolve(g, id, name);
            && r.graph.messages == g.messages
            && r.contact in r.graph.contacts && r.graph.contacts[r.contact].isVip == VipOf(g, id)
  {
    ResolveKeepsValid(g, id, name);
    ResolveKeepsVip(g, id, name, id);
  }

  lemma ScoredByOneMore(p: Pipeline, ds: set<Delivery>, u: Pipeline, d: Delivery, t: Thread)
    requires ReachedBy(p, ds, u) && Consistent(ds + {d})
    ensures ScoredBy(p, ds + {d}, t, ScoreOf(Ingest(u, d), t))
  {
    IngestScores(u, d, Scheduled, t);
    assert ScoredBy(p, ds, t, ScoreOf(u, t));
    assert DeliveredScore(p.graph, d) == DeliveredScore(u.graph, d);
    if KeyOf(d) in u.graph.messages && KeyOf(d) !in p.graph.messages {
      var c :| c in ds && KeyOf(c) == KeyOf(d);
      assert DeliveredScore(p.graph, c) == DeliveredScore(p.graph, d);
      SameAgain(p, ds, c, d, t, ScoreOf(u, t));
    } else {
      hide IngestTo, VipOf, Score, DeliveredScore, ScoreOf, Consistent;
      OneMoreScore(p, ds, d, t, ScoreOf(u, t));
    }
  }

  lemma SameAgain(p: Pipeline, ds: set<Delivery>, c: Delivery, d: Delivery, t: Thread, score: int)
    requires ScoredBy(p, ds, t, score) && c in ds && KeyOf(c) == KeyOf(d)
    requires DeliveredScore(p.graph, c) == DeliveredScore(p.graph, d)
    ensures ScoredBy(p, ds + {d}, t, score)
  {
    hide DeliveredScore, ScoreOf;
    if score != ScoreOf(p, t) {
      var e :| e in ds && e.thread == t && KeyOf(e) !in p.graph.messages && DeliveredScore(p.graph, e) == score;
      assert e in ds + {d};
    }
  }

  lemma OneMoreScore(p: Pipeline, ds: set<Delivery>, d: Delivery, t: Thread, score: int)
    requires ScoredBy(p, ds, t, score)
    ensures ScoredBy(p, ds + {d}, t,
              if t == d.thread && KeyOf(d) !in p.graph.messages then Max(score, DeliveredScore(p.graph, d)) else score)
  {
    hide DeliveredScore, ScoreOf;
    assert d in ds + {d};
    if score != ScoreOf(p, t) {
      var e :| e in ds && e.thread == t && KeyOf(e) !in p.graph.messages && DeliveredScore(p.graph, e) == score;
      assert e in ds + {d};
    }
  }

  lemma VipOneMore(u: Pipeline, d: Delivery, id: Identity)
    requires Valid(u.graph)
    ensures VipOf(Ingest(u, d).graph, id) == VipOf(u.graph, id)
  {
    ResolveKeepsVip(u.graph, SenderOf(d), d.name, id);
    hide Resolve, Valid, Score;
  }

  lemma ReachedByOneMore(p: Pipeline, ds: set<Delivery>, u: Pipeline, d: Delivery)
    requires ReachedBy(p, ds, u) && Consistent(ds + {d}) && Valid(u.graph)
    ensures ReachedBy(p, ds + {d}, Ingest(u, d))
  {
    hide ScoredBy, Ingest, VipOf, Valid, Consistent, ScoreOf;
    var w := Ingest(u, d);
    forall t ensures ScoredBy(p, ds + {d}, t, ScoreOf(w, t)) { ScoredByOneMore(p, ds, u, d, t); }
    forall id ensures VipOf(w.graph, id) == VipOf(p.graph, id) { VipOneMore(u, d, id); }
    KeysOneMore(u, d);
    OneMoreKeys(ds, d);
  }

  lemma KeysOneMore(u: Pipeline, d: Delivery)
    ensures var w := Ingest(u, d);
            && w.graph.messages.Keys == u.graph.messages.Keys + {KeyOf(d)}
            && w.graph.owner.Keys == u.graph.owner.Keys + {SenderOf(d)}
            && w.conversations.Keys == u.conversations.Keys + {d.thread}
  {
    hide Score, VipOf;
  }

  lemma OneMoreKeys(ds: set<Delivery>, d: Delivery)
    ensures (set c | c in ds + {d} :: KeyOf(c)) == (set c | c in ds :: KeyOf(c)) + {KeyOf(d)}
    ensures (set c | c in ds + {d} :: SenderOf(c)) == (set c | c in ds :: SenderOf(c)) + {SenderOf(d)}
    ensures (set c | c in ds + {d} :: c.thread) == (set c | c in ds :: c.thread) + {d.thread}
  {
  }

  function SetOf(ds: seq<Delivery>): set<Delivery> { set d | d in ds }

  lemma {:induction false} DeliveriesReach(p: Pipeline, past: set<Delivery>, u: Pipeline, ds: seq<Delivery>)
    requires ReachedBy(p, past, u) && Valid(u.graph) && Consistent(past + SetOf(ds))
    ensures ReachedBy(p, past + SetOf(ds), Deliveries(u, ds))
    decreases ds
  {
    hide ReachedBy, Valid, IngestTo;
    if ds == [] {
      assert past + SetOf(ds) == past;
    } else {
      assert ds[0] in SetOf(ds);
      assert SetOf(ds) == {ds[0]} + SetOf(ds[1..]) by { assert ds == [ds[0]] + ds[1..]; }
      assert past + SetOf(ds) == past + {ds[0]} + SetOf(ds[1..]);
      ReachedByOneMore(p, past, u, ds[0]);
      IngestKeepsGraph(u, ds[0], Scheduled);
      DeliveriesReach(p, past + {ds[0]}, Ingest(u, ds[0]), ds[1..]);
    }
  }

  /**
   * Message, identity and conversation keys, VIP flags and all scores depend only on the set of deliveries: not on
   * their order, nor on how often each arrived.
   */
  lemma DuplicatesAndOrderDoNotMatter(p: Pipeline, ds: seq<Delivery>, es: seq<Delivery>)
    requires Valid(p.graph) && SetOf(ds) == SetOf(es) && Consistent(SetOf(ds))
    ensures var u, w := Deliveries(p, ds), Deliveries(p, es);
            && u.graph.messages.Keys == w.graph.messages.Keys == p.graph.messages.Keys + (set d | d in ds :: KeyOf(d))
            && u.graph.owner.Keys == w.graph.owner.Keys
            && u.conversations.Keys == w.conversations.Keys
            && (forall id :: VipOf(u.graph, id) == VipOf(w.graph, id))
            && (forall t :: ScoreOf(u, t) == ScoreOf(w, t))
  {
    assert ReachedBy(p, {}, p);
    assert {} + SetOf(ds) == SetOf(ds);
    DeliveriesReach(p, {}, p, ds);
    DeliveriesReach(p, {}, p, es);
    var u, w := Deliveries(p, ds), Deliveries(p, es);
    hide VipOf, ScoreOf, Consistent, Valid;
    forall t ensures ScoreOf(u, t) == ScoreOf(w, t) {
      assert ScoredBy(p, SetOf(ds), t, ScoreOf(u, t)) && ScoredBy(p, SetOf(ds), t, ScoreOf(w, t));
    }
    assert (set d | d in ds :: KeyOf(d)) == (set d | d in SetOf(ds) :: KeyOf(d));
  }

  /**
   * A first arrival does everything once: an unknown account gets a new contact under the sender's name, the message
   * is stored as delivered, dates its conversation and raises its score, and is announced, automated and scheduled.
   */
  lemma FirstArrivalDoesEverything(p: Pipeline, d: Delivery)
    requires MessageKey(d.thread, d.messageId) !in p.graph.messages
    ensures var u := Act(p, Deliver(d));
            var key, sender := MessageKey(d.thread, d.messageId), Identity(d.thread.provider, d.senderId);
            var score := Score(VipOf(p.graph, sender), d.body);
            && (if sender in p.graph.owner then u.graph.owner == p.graph.owner && u.graph.contacts == p.graph.contacts
                else
                  && u.graph.owner == p.graph.owner[sender := p.graph.next]
                  && u.graph.contacts == p.graph.contacts[p.graph.next := Contact(d.name, false, false)])
            && u.graph.messages == p.graph.messages[
                 key := Message(By(u.graph.owner[sender]), d.inbound, d.body, d.receivedAt)]
            && u.conversations == p.conversations[
                 d.thread := Conversation(d.receivedAt, Max(ScoreOf(p, d.thread), score))]
            && u.emitted == p.emitted + [Emission(key, score)]
            && u.automated == p.automated + [key]
            && u.scheduled == p.scheduled + [if d.inbound then Restart(d.thread) else Cancel(d.thread)]
  {
    ResolveMeaning(p.graph, Identity(d.thread.provider, d.senderId), d.name);
    hide Score, VipOf, Resolve;
  }

  /** A second arrival triggers nothing and stores nothing; only the conversation's date follows it. */
  lemma DuplicateChangesOnlyTheDate(p: Pipeline, d: Delivery)
    requires MessageKey(d.thread, d.messageId) in p.graph.messages
    requires Identity(d.thread.provider, d.senderId) in p.graph.owner && d.thread in p.conversations
    ensures var dated := p.conversations[d.thread].(lastMessageAt := d.receivedAt);
            Ingest(p, d) == p.(conversations := p.conversations[d.thread := dated])
  {
  }

  /** The action sets the date of conversation `t` to `at`. */
  predicate Dates(p: Pipeline, a: Action, t: Thread, at: int) {
    match a
    case Deliver(d) => d.thread == t && d.receivedAt == at
    case Crash(d, reached) => Past(reached, Upserted) && d.thread == t && d.receivedAt == at
    case Reply(key, _, now) => key.thread == t && t in p.conversations && key !in p.graph.messages && now == at
    case _ => false
  }

  predicate Concerns(a: Action, t: Thread) {
    match a
    case Deliver(d) => d.thread == t
    case Crash(d, _) => d.thread == t
    case Reply(key, _, _) => key.thread == t
    case _ => false
  }

  lemma {:induction false} DateStays(p: Pipeline, t: Thread, es: seq<Action>)
    requires t in p.conversations && forall a :: a in es ==> !Concerns(a, t)
    ensures t in Acts(p, es).conversations
    ensures Acts(p, es).conversations[t].lastMessageAt == p.conversations[t].lastMessageAt
    decreases es
  {
    if es == [] {
    } else {
      assert es[0] in es;
      DateStays(Act(p, es[0]), t, es[1..]);
    }
  }

  /** The conversation's date is the last writer's, delivery or reply, even if an earlier one carried a later date. */
  lemma LastWriterWins(p: Pipeline, a: Action, t: Thread, at: int, after: seq<Action>)
    requires Dates(p, a, t, at) && forall b :: b in after ==> !Concerns(b, t)
    ensures var u := Acts(Act(p, a), after);
            t in u.conversations && u.conversations[t].lastMessageAt == at
  {
    DateStays(Act(p, a), t, after);
  }

  /** A duplicate that arrives after a reply takes the conversation's date back behind the reply. */
  lemma DateGoesBackwards(d: Delivery, key: MessageKey, body: string, now: int)
    requires key.thread == d.thread && key != KeyOf(d) && now > d.receivedAt
    ensures var replied := Acts(START, [Deliver(d), Reply(key, body, now)]);
            var again := Acts(START, [Deliver(d), Reply(key, body, now), Deliver(d)]);
            && d.thread in replied.conversations && replied.conversations[d.thread].lastMessageAt == now
            && d.thread in again.conversations && again.conversations[d.thread].lastMessageAt == d.receivedAt
  {
    var first, second := Deliver(d), Reply(key, body, now);
    var p := Act(START, first);
    var q := Act(p, second);
    IngestRecords(START, d, Scheduled);
    assert Dates(p, second, d.thread, now) by { IngestScores(START, d, Scheduled, d.thread); }
    hide IngestTo, Score;
    LastWriterWins(p, second, d.thread, now, []);
    LastWriterWins(q, first, d.thread, d.receivedAt, []);
    hide Act;
    ActsConcat(START, [first], [second]);
    ActsConcat(START, [first, second], [first]);
    assert [first] + [second] == [first, second] && [first, second] + [first] == [first, second, first];
    assert Acts(START, [first]) == Acts(p, []) && Acts(p, [second]) == Acts(q, []);
    assert Acts(q, [first]) == Acts(Act(q, first), []);
  }

  // ---------- the worker ----------

  class EventsProcessor {
    const identities: IdentityStore
    var conversations: map<Thread, Conversation>
    var emitted: seq<Emission>
    var automated: seq<MessageKey>
    var scheduled: seq<SchedulerCall>
    var records: seq<Record>
    var handled: seq<MessageKey>

    ghost function Contents(): Pipeline
      reads this, identities
    {
      Pipeline(identities.Rows(), conversations, emitted, automated, scheduled, records, handled)
    }

    constructor ()
      ensures Contents() == START && fresh(identities)
    {
      identities := new IdentityStore();
      conversations, emitted, automated, scheduled, records, handled := map[], [], [], [], [], [];
    }

    method ComputePriorityScore(isVip: bool, body: string) returns (score: int)
      ensures score == Score(isVip, body)
    {
      score := BASE_SCORE;
      if isVip { score := score + VIP_BONUS; }
      if ContainsUrgencyKeyword(body) { score := score + URGENCY_BONUS; }
    }

    method UpsertConversation(t: Thread, receivedAt: int) returns (conversation: Conversation)
      modifies this`conversations
      ensures conversation ==
                Conversation(receivedAt, if t in old(conversations) then old(conversations)[t].priorityScore else 0)
      ensures conversations == old(conversations)[t := conversation]
    {
      conversation := Conversation(receivedAt, 0);
      if t in conversations {
        conversation := conversations[t].(lastMessageAt := receivedAt);
      }
      conversations := conversations[t := conversation];
    }

    /** What happens once per stored message, past the early return for duplicates. */
    method Trigger(key: MessageKey, score: int, inbound: bool)
      modifies this`emitted, this`automated, this`scheduled
      ensures emitted == old(emitted) + [Emission(key, score)]
      ensures automated == old(automated) + [key]
      ensures scheduled == old(scheduled) + [CallFor(key.thread, inbound)]
    {
      emitted := emitted + [Emission(key, score)];
      automated := automated + [key];
      if inbound {
        scheduled := scheduled + [Restart(key.thread)];
      } else {
        scheduled := scheduled + [Cancel(key.thread)];
      }
    }

    /** A message seen for the first time. */
    method StoreMessage(d: Delivery, contact: int, isVip: bool, conversation: Conversation)
      modifies this`conversations, this`emitted, this`automated, this`scheduled, this`records, this`handled,
        identities
      requires d.thread in conversations && conversations[d.thread] == conversation
      ensures Contents() == StoreTo(old(Contents()), d, contact, isVip, conversation, Scheduled)
    {
      hide Score;
      var key := KeyOf(d);
      var score := ComputePriorityScore(isVip, d.body);
      identities.CreateMessage(key, Message(By(contact), d.inbound, d.body, d.receivedAt));
      if score > conversation.priorityScore {
        conversations := conversations[d.thread := conversation.(priorityScore := score)];
      }
      records := records + [Record(key, score, Scheduled)];
      handled := handled + [key];
      Trigger(key, score, d.inbound);
    }

    method HandleMessageReceived(d: Delivery)
      requires Valid(identities.Rows())
      modifies this, identities
      ensures Contents() == Ingest(old(Contents()), d)
      ensures Valid(identities.Rows())
    {
      IngestKeepsGraph(Contents(), d, Scheduled);
      ResolvedContact(identities.Rows(), SenderOf(d), d.name);
      hide Valid, Score, Resolve, VipOf, StoreTo;
      var contact := identities.ResolveIdentity(SenderOf(d), d.name);
      var conversation := UpsertConversation(d.thread, d.receivedAt);
      if KeyOf(d) in identities.messages { return; }
      StoreMessage(d, contact, identities.contacts[contact].isVip, conversation);
    }
  }
}
