/**
 * The identity graph of one workspace: which contact owns each provider account, and which contact
 * each message is attributed to. Resolving, merging and splitting move these around.
 */
module IdentityGraph {

  datatype Contact = Contact(name: string, isVip: bool, deleted: bool)

  /** A provider account. The pair is unique within a workspace. */
  datatype Identity = Identity(provider: int, externalId: string)

  /** A conversation, by its unique key. */
  datatype Thread = Thread(provider: int, externalId: string)

  /** A message, by its unique key. */
  datatype MessageKey = MessageKey(thread: Thread, externalId: string)

  datatype Sender = Nobody | By(contact: int)

  datatype Message = Message(sender: Sender, inbound: bool, body: string, receivedAt: int)

  /** `next` is the id the next contact will get; ids are never reused. */
  datatype Graph = Graph(
    contacts: map<int, Contact>, owner: map<Identity, int>, messages: map<MessageKey, Message>, next: int)

  predicate Live(g: Graph, c: int) {
    c in g.contacts && !g.contacts[c].deleted
  }

  /** The contact owns an account on the provider. */
  ghost predicate IsOn(g: Graph, c: int, provider: int) {
    exists i :: i in g.owner && g.owner[i] == c && i.provider == provider
  }

  function IdentitiesOf(g: Graph, c: int): set<Identity> {
    set i | i in g.owner && g.owner[i] == c
  }

  function Providers(ids: set<Identity>): set<int> {
    set i | i in ids :: i.provider
  }

  // ---------- operations ----------

  datatype Resolved = Resolved(graph: Graph, contact: int)

  /** `resolveIdentity`: an exact repeat, or a new contact that is not a VIP. */
  function Resolve(g: Graph, id: Identity, name: string): Resolved {
    if id in g.owner then Resolved(g, g.owner[id])
    else
      Resolved(
        g.(contacts := g.contacts[g.next := Contact(name, false, false)],
           owner := g.owner[id := g.next],
           next := g.next + 1),
        g.next)
  }

  function Store(g: Graph, key: MessageKey, m: Message): Graph {
    g.(messages := g.messages[key := m])
  }

  function GiveIdentities(owner: map<Identity, int>, ids: set<Identity>, to: int): map<Identity, int> {
    map i | i in owner :: if i in ids then to else owner[i]
  }

  /** Attribute to `to` the messages of `from` in conversations on the given providers. */
  function GiveMessages(messages: map<MessageKey, Message>, from: int, providers: set<int>, to: int):
    map<MessageKey, Message>
  {
    map k | k in messages ::
      if messages[k].sender == By(from) && k.thread.provider in providers then messages[k].(sender := By(to))
      else messages[k]
  }

  function GiveAllMessages(messages: map<MessageKey, Message>, from: int, to: int): map<MessageKey, Message> {
    map k | k in messages :: if messages[k].sender == By(from) then messages[k].(sender := By(to)) else messages[k]
  }

  datatype SplitOutcome = ContactNotFound | NoIdentitiesToSplit | SplitOff(newContact: int)

  datatype SplitResult = SplitResult(graph: Graph, outcome: SplitOutcome)

  /** `splitContact` */
  function Split(g: Graph, c: int, ids: set<Identity>): SplitResult {
    var moving := ids * IdentitiesOf(g, c);
    if c !in g.contacts then SplitResult(g, ContactNotFound)
    else if moving == {} then SplitResult(g, NoIdentitiesToSplit)
    else
      SplitResult(
        Graph(g.contacts[g.next := Contact(g.contacts[c].name, g.contacts[c].isVip, false)],
              GiveIdentities(g.owner, moving, g.next),
              GiveMessages(g.messages, c, Providers(moving), g.next),
              g.next + 1),
        SplitOff(g.next))
  }

  /** The graph part of `approveMergeSuggestion`: `a` survives, `b` is absorbed. */
  function Absorb(g: Graph, a: int, b: int): Graph
    requires a in g.contacts && b in g.contacts
  {
    var vip := if g.contacts[b].isVip then g.contacts[a := g.contacts[a].(isVip := true)] else g.contacts;
    Graph(vip[b := vip[b].(deleted := true)],
          GiveIdentities(g.owner, IdentitiesOf(g, b), a),
          GiveAllMessages(g.messages, b, a),
          g.next)
  }

  function SetVip(g: Graph, c: int, vip: bool): Graph {
    if Live(g, c) then g.(contacts := g.contacts[c := g.contacts[c].(isVip := vip)]) else g
  }

  // ---------- the invariant ----------

  ghost predicate IdsIssued(g: Graph) {
    forall c :: c in g.contacts ==> c < g.next
  }

  ghost predicate OwnersLive(g: Graph) {
    forall i :: i in g.owner ==> Live(g, g.owner[i])
  }

  /** A message is only ever attributed to a live contact with an account on the message's provider. */
  ghost predicate SendersOnProvider(g: Graph) {
    forall k :: k in g.messages && g.messages[k].sender.By? ==>
      Live(g, g.messages[k].sender.contact) && IsOn(g, g.messages[k].sender.contact, k.thread.provider)
  }

  ghost predicate Valid(g: Graph) {
    IdsIssued(g) && OwnersLive(g) && SendersOnProvider(g)
  }

  datatype Event =
    | Receive(key: MessageKey, externalId: string, name: string, inbound: bool, body: string, receivedAt: int)
    | Send(key: MessageKey, body: string, receivedAt: int)
    | Merge(a: int, b: int)
    | SplitContact(contact: int, ids: set<Identity>)
    | MarkVip(contact: int, vip: bool)

  /** A merge is taken as refused unless both its contacts are live and distinct. */
  function Step(g: Graph, e: Event): Graph {
    match e
    case Receive(key, externalId, name, inbound, body, receivedAt) =>
      var r := Resolve(g, Identity(key.thread.provider, externalId), name);
      if key in g.messages then r.graph
      else Store(r.graph, key, Message(By(r.contact), inbound, body, receivedAt))
    case Send(key, body, receivedAt) =>
      if key in g.messages then g else Store(g, key, Message(Nobody, false, body, receivedAt))
    case Merge(a, b) => if Live(g, a) && Live(g, b) && a != b then Absorb(g, a, b) else g
    case SplitContact(c, ids) =>
      Split(g, c, ids).graph
    case MarkVip(c, vip) => SetVip(g, c, vip)
  }

  function Run(g: Graph, es: seq<Event>): Graph
    decreases es
  {
    if es == [] then g else Run(Step(g, es[0]), es[1..])
  }

  /**
   * A split: an unknown contact, or none of the accounts its own, is refused and changes nothing. Otherwise exactly
   * the contact's own accounts among those named move to a new contact that copies its name and VIP flag, and with
   * them exactly its messages on their providers.
   */
  lemma SplitMeaning(g: Graph, c: int, ids: set<Identity>)
    ensures var r := Split(g, c, ids);
            var u := r.graph;
            && (r.outcome == ContactNotFound <==> c !in g.contacts)
            && (r.outcome == NoIdentitiesToSplit <==>
                  c in g.contacts && forall i :: i in ids && i in g.owner ==> g.owner[i] != c)
            && (!r.outcome.SplitOff? ==> u == g)
            && (r.outcome.SplitOff? ==>
                  && r.outcome.newContact == g.next && u.next == g.next + 1
                  && c in g.contacts
                  && u.contacts == g.contacts[g.next := Contact(g.contacts[c].name, g.contacts[c].isVip, false)]
                  && u.owner.Keys == g.owner.Keys && u.messages.Keys == g.messages.Keys
                  && (forall i :: i in g.owner ==>
                        u.owner[i] == if i in ids && g.owner[i] == c then g.next else g.owner[i])
                  && (forall k :: k in g.messages ==>
                        u.messages[k] ==
                          if g.messages[k].sender == By(c) && MovesOn(g, c, ids, k.thread.provider)
                          then g.messages[k].(sender := By(g.next)) else g.messages[k]))
  {
    var moving := ids * IdentitiesOf(g, c);
    if moving == {} {
      forall i | i in ids && i in g.owner ensures g.owner[i] != c {
        assert i !in moving;
      }
    } else {
      var i :| i in moving;
      assert i in ids && i in g.owner && g.owner[i] == c;
    }
    forall p ensures p in Providers(moving) <==> MovesOn(g, c, ids, p) { }
  }

  ghost predicate MovesOn(g: Graph, c: int, ids: set<Identity>, provider: int) {
    exists i :: i in ids && i in g.owner && g.owner[i] == c && i.provider == provider
  }

  /** Only live contacts are merged, and not with themselves; only live contacts are marked, and only their flag. */
  lemma MergeAndMarkMeaning(g: Graph, a: int, b: int, vip: bool)
    ensures Step(g, Merge(a, b)) == if Live(g, a) && Live(g, b) && a != b then Absorb(g, a, b) else g
    ensures var u := Step(g, MarkVip(a, vip));
            if Live(g, a) then u == g.(contacts := g.contacts[a := Contact(g.contacts[a].name, vip, false)]) else u == g
  {
  }

  /** A known account changes nothing; an unknown one gets a new contact under the sender's name, not a VIP. */
  lemma ResolveMeaning(g: Graph, id: Identity, name: string)
    ensures var r := Resolve(g, id, name);
            if id in g.owner then r.graph == g && r.contact == g.owner[id]
            else
              && r.contact == g.next && r.graph.next == g.next + 1
              && r.graph.contacts == g.contacts[g.next := Contact(name, false, false)]
              && r.graph.owner == g.owner[id := g.next] && r.graph.messages == g.messages
  {
  }

  lemma ResolveKeepsValid(g: Graph, id: Identity, name: string)
    requires Valid(g)
    ensures var r := Resolve(g, id, name);
            && Valid(r.graph) && Live(r.graph, r.contact) && IsOn(r.graph, r.contact, id.provider)
            && r.graph.owner.Keys == g.owner.Keys + {id} && r.graph.owner[id] == r.contact
            && (forall i :: i in g.owner ==> r.graph.owner[i] == g.owner[i])
  {
    var u := Resolve(g, id, name).graph;
    assert id in u.owner;
    assert forall i :: i in g.owner ==> i in u.owner && u.owner[i] == g.owner[i];
    forall c, p | IsOn(g, c, p) ensures IsOn(u, c, p) {
      var i :| i in g.owner && g.owner[i] == c && i.provider == p;
      assert i in u.owner;
    }
  }

  lemma StoreKeepsValid(g: Graph, key: MessageKey, m: Message)
    requires Valid(g)
    requires m.sender.By? ==> Live(g, m.sender.contact) && IsOn(g, m.sender.contact, key.thread.provider)
    ensures Valid(Store(g, key, m))
  {
    var u := Store(g, key, m);
    assert forall c, p :: IsOn(g, c, p) ==> IsOn(u, c, p);
  }

  lemma AbsorbMovesProviders(g: Graph, a: int, b: int, c: int, p: int)
    requires a in g.contacts && b in g.contacts && IsOn(g, c, p)
    ensures IsOn(Absorb(g, a, b), if c == b then a else c, p)
  {
    var i :| i in g.owner && g.owner[i] == c && i.provider == p;
    assert i in Absorb(g, a, b).owner;
  }

  lemma AbsorbKeepsValid(g: Graph, a: int, b: int)
    requires Valid(g) && Live(g, a) && Live(g, b) && a != b
    ensures Valid(Absorb(g, a, b))
    ensures IdentitiesOf(Absorb(g, a, b), b) == {}
  {
    var u := Absorb(g, a, b);
    forall k | k in u.messages && u.messages[k].sender.By?
      ensures Live(u, u.messages[k].sender.contact) && IsOn(u, u.messages[k].sender.contact, k.thread.provider)
    {
      AbsorbMovesProviders(g, a, b, g.messages[k].sender.contact, k.thread.provider);
    }
  }

  /** What stays behind is still covered: an account leaves only together with its provider's messages. */
  lemma SplitMovesProviders(g: Graph, c: int, ids: set<Identity>, d: int, p: int)
    requires IdsIssued(g) && OwnersLive(g) && Split(g, c, ids).outcome.SplitOff? && IsOn(g, d, p)
    ensures var moved := d == c && p in Providers(ids * IdentitiesOf(g, c));
            IsOn(Split(g, c, ids).graph, if moved then g.next else d, p)
  {
    var u := Split(g, c, ids).graph;
    var moving := ids * IdentitiesOf(g, c);
    if d == c && p in Providers(moving) {
      var i :| i in moving && i.provider == p;
      assert i in u.owner && u.owner[i] == g.next;
    } else {
      var i :| i in g.owner && g.owner[i] == d && i.provider == p;
      assert i !in moving;
      assert i in u.owner && u.owner[i] == d;
    }
  }

  lemma SplitKeepsValid(g: Graph, c: int, ids: set<Identity>)
    requires Valid(g) && Split(g, c, ids).outcome.SplitOff?
    ensures Valid(Split(g, c, ids).graph) && Live(g, c)
  {
    var u := Split(g, c, ids).graph;
    var i :| i in ids * IdentitiesOf(g, c);
    assert Live(g, g.owner[i]);
    forall k | k in u.messages && u.messages[k].sender.By?
      ensures Live(u, u.messages[k].sender.contact) && IsOn(u, u.messages[k].sender.contact, k.thread.provider)
    {
      SplitMovesProviders(g, c, ids, g.messages[k].sender.contact, k.thread.provider);
    }
  }

  lemma StepKeepsValid(g: Graph, e: Event)
    requires Valid(g)
    ensures Valid(Step(g, e))
  {
    hide Resolve, Split, Absorb, Store, Valid;
    match e
    case Receive(key, externalId, name, inbound, body, receivedAt) =>
      var id := Identity(key.thread.provider, externalId);
      ResolveKeepsValid(g, id, name);
      var r := Resolve(g, id, name);
      StoreKeepsValid(r.graph, key, Message(By(r.contact), inbound, body, receivedAt));
    case Send(key, body, receivedAt) =>
      StoreKeepsValid(g, key, Message(Nobody, false, body, receivedAt));
    case Merge(a, b) => if Live(g, a) && Live(g, b) && a != b { AbsorbKeepsValid(g, a, b); }
    case SplitContact(c, ids) =>
      SplitChangesNothingElse(g, c, ids);
      if Split(g, c, ids).outcome.SplitOff? { SplitKeepsValid(g, c, ids); }
    case MarkVip(c, vip) => SetVipKeepsValid(g, c, vip);
  }

  lemma SplitChangesNothingElse(g: Graph, c: int, ids: set<Identity>)
    ensures !Split(g, c, ids).outcome.SplitOff? ==> Split(g, c, ids).graph == g
  {
  }

  lemma SetVipKeepsValid(g: Graph, c: int, vip: bool)
    requires Valid(g)
    ensures Valid(SetVip(g, c, vip))
  {
    var u := SetVip(g, c, vip);
    assert forall d, p :: IsOn(g, d, p) ==> IsOn(u, d, p);
  }

  const EMPTY: Graph := Graph(map[], map[], map[], 0)

  /** Every run of deliveries, sends, merges, splits and VIP changes keeps each message on a provider of its sender. */
  lemma {:induction false} RunKeepsValid(g: Graph, es: seq<Event>)
    requires Valid(g)
    ensures Valid(Run(g, es))
    decreases es
  {
    if es == [] {
    } else {
      StepKeepsValid(g, es[0]);
      RunKeepsValid(Step(g, es[0]), es[1..]);
    }
  }

  /** Hence a contact once absorbed can neither be resolved to nor split: it owns nothing and sent nothing. */
  lemma AbsorbedIsOrphaned(es: seq<Event>, c: int, ids: set<Identity>)
    ensures var g := Run(EMPTY, es);
            c in g.contacts && g.contacts[c].deleted ==>
              && Split(g, c, ids).outcome == NoIdentitiesToSplit
              && (forall id, name :: Resolve(g, id, name).contact != c)
              && (forall k :: k in g.messages ==> g.messages[k].sender != By(c))
  {
    RunKeepsValid(EMPTY, es);
  }

  // ---------- undo ----------

  /** `after` attributes each message to `to` where `before` attributes it to `from`, and is the same otherwise. */
  ghost predicate Renamed(before: map<MessageKey, Message>, after: map<MessageKey, Message>, from: int, to: int) {
    && after.Keys == before.Keys
    && forall k :: k in before ==>
         after[k] == if before[k].sender == By(from) then before[k].(sender := By(to)) else before[k]
  }

  /** Some message of `a` lies on a provider of `b`. */
  ghost predicate Entangled(g: Graph, a: int, b: int) {
    exists k :: k in g.messages && g.messages[k].sender == By(a) && IsOn(g, b, k.thread.provider)
  }

  /** Who sent each message after the merge and the split. */
  lemma SenderAfterUndo(g: Graph, a: int, b: int, k: MessageKey)
    requires Valid(g) && Live(g, a) && Live(g, b) && a != b && k in g.messages
    ensures var ids := IdentitiesOf(g, b);
            var moved :=
              g.messages[k].sender == By(b) || (g.messages[k].sender == By(a) && IsOn(g, b, k.thread.provider));
            GiveMessages(GiveAllMessages(g.messages, b, a), a, Providers(ids), g.next)[k] ==
              if moved then g.messages[k].(sender := By(g.next)) else g.messages[k]
  {
    assert k.thread.provider in Providers(IdentitiesOf(g, b)) <==> IsOn(g, b, k.thread.provider);
  }

  /** Owners and contacts after the merge and the split. */
  lemma OwnersAfterUndo(g: Graph, a: int, b: int)
    requires Valid(g) && Live(g, a) && Live(g, b) && a != b && IdentitiesOf(g, b) != {}
    ensures var h := Absorb(g, a, b);
            var vip := g.contacts[a].isVip || g.contacts[b].isVip;
            && IdentitiesOf(g, b) <= IdentitiesOf(h, a)
            && GiveIdentities(h.owner, IdentitiesOf(g, b), g.next)
                 == GiveIdentities(g.owner, IdentitiesOf(g, b), g.next)
            && h.contacts == g.contacts[a := g.contacts[a].(isVip := vip)][b := g.contacts[b].(deleted := true)]
  {
  }

  lemma RenamedIffNotEntangled(g: Graph, a: int, b: int, messages: map<MessageKey, Message>)
    requires Valid(g) && a in g.contacts && a != b && messages.Keys == g.messages.Keys
    requires forall k :: k in g.messages ==>
      messages[k] == (
        if g.messages[k].sender == By(b) || (g.messages[k].sender == By(a) && IsOn(g, b, k.thread.provider))
        then g.messages[k].(sender := By(g.next)) else g.messages[k])
    ensures Renamed(g.messages, messages, b, g.next) <==> !Entangled(g, a, b)
  {
    hide IsOn;
  }

  /**
   * Merging b into a and splitting b's accounts off again always gives the accounts to one new contact, and
   * restores the messages, with the new contact in b's place, exactly if no message of a was on a provider of b.
   */
  lemma MergeThenSplit(g: Graph, a: int, b: int)
    requires Valid(g) && Live(g, a) && Live(g, b) && a != b
    requires IdentitiesOf(g, b) != {}
    ensures var r := Split(Absorb(g, a, b), a, IdentitiesOf(g, b));
            && r.outcome.SplitOff? && r.outcome.newContact == g.next
            && r.graph.owner == GiveIdentities(g.owner, IdentitiesOf(g, b), g.next)
            && (Renamed(g.messages, r.graph.messages, b, g.next) <==> !Entangled(g, a, b))
            && r.graph.contacts == g.contacts[
                 a := g.contacts[a].(isVip := g.contacts[a].isVip || g.contacts[b].isVip)][
                 b := g.contacts[b].(deleted := true)][
                 g.next := Contact(g.contacts[a].name, g.contacts[a].isVip || g.contacts[b].isVip, false)]
  {
    var h := Absorb(g, a, b);
    var ids := IdentitiesOf(g, b);
    var r := Split(h, a, ids);
    OwnersAfterUndo(g, a, b);
    assert ids * IdentitiesOf(h, a) == ids;
    hide IsOn, Renamed, Entangled, GiveIdentities, GiveMessages, GiveAllMessages, IdentitiesOf, Providers;
    var messages := GiveMessages(GiveAllMessages(g.messages, b, a), a, Providers(ids), g.next);
    assert r.graph.messages == messages && messages.Keys == g.messages.Keys;
    forall k | k in g.messages
      ensures messages[k] == (
        if g.messages[k].sender == By(b) || (g.messages[k].sender == By(a) && IsOn(g, b, k.thread.provider))
        then g.messages[k].(sender := By(g.next)) else g.messages[k])
    {
      SenderAfterUndo(g, a, b, k);
    }
    RenamedIffNotEntangled(g, a, b, messages);
  }

  /** Contacts without a common provider are never entangled. */
  lemma DisjointProvidersUndo(g: Graph, a: int, b: int)
    requires Valid(g) && Live(g, a) && Live(g, b) && a != b && IdentitiesOf(g, b) != {}
    requires forall p :: !(IsOn(g, a, p) && IsOn(g, b, p))
    ensures var r := Split(Absorb(g, a, b), a, IdentitiesOf(g, b));
            && r.outcome == SplitOff(g.next)
            && IdentitiesOf(r.graph, g.next) == IdentitiesOf(g, b) && IdentitiesOf(r.graph, a) == IdentitiesOf(g, a)
            && Renamed(g.messages, r.graph.messages, b, g.next)
  {
    MergeThenSplit(g, a, b);
  }

  /** Two contacts on one provider: the split takes the surviving contact's own message away with it. */
  lemma EntangledMergeIsNotUndone()
    ensures var es := [
              Receive(MessageKey(Thread(1, "t"), "m1"), "ann", "Ann", true, "hi", 1),
              Receive(MessageKey(Thread(1, "t"), "m2"), "bob", "Bob", true, "hello", 2)];
            var g := Run(EMPTY, es);
            var r := Split(Absorb(g, 0, 1), 0, IdentitiesOf(g, 1));
            r.outcome.SplitOff? && r.graph.messages[es[0].key].sender == By(r.outcome.newContact)
  {
    var m1, m2 := MessageKey(Thread(1, "t"), "m1"), MessageKey(Thread(1, "t"), "m2");
    var e1, e2 := Receive(m1, "ann", "Ann", true, "hi", 1), Receive(m2, "bob", "Bob", true, "hello", 2);
    var ann, bob := Identity(1, "ann"), Identity(1, "bob");
    assert ann.externalId[0] != bob.externalId[0];
    assert m1.externalId[1] != m2.externalId[1];
    var g := Step(Step(EMPTY, e1), e2);
    assert [e1, e2][1..] == [e2];
    assert Run(EMPTY, [e1, e2]) == g by { assert Run(Step(EMPTY, e1), [e2]) == Run(g, []); }
    assert bob in IdentitiesOf(g, 1);
    var h := Absorb(g, 0, 1);
    assert bob in IdentitiesOf(g, 1) * IdentitiesOf(h, 0);
    assert bob.provider in Providers(IdentitiesOf(g, 1) * IdentitiesOf(h, 0));
    assert m1 in h.messages && h.messages[m1].sender == By(0);
  }

  /** Splitting and merging back restores owners, senders and flags: only the deleted contact remains. */
  lemma SplitThenMerge(g: Graph, c: int, ids: set<Identity>)
    requires Valid(g) && Split(g, c, ids).outcome.SplitOff?
    ensures var r := Split(g, c, ids);
            var u := Absorb(r.graph, c, r.outcome.newContact);
            && u.owner == g.owner
            && u.messages == g.messages
            && u.contacts == g.contacts[g.next := Contact(g.contacts[c].name, g.contacts[c].isVip, true)]
  {
    SplitKeepsValid(g, c, ids);
    var r := Split(g, c, ids);
    var u := Absorb(r.graph, c, r.outcome.newContact);
    forall k | k in g.messages ensures u.messages[k] == g.messages[k] {
      assert g.messages[k].sender != By(g.next);
    }
    forall i | i in g.owner ensures u.owner[i] == g.owner[i] {
      assert Live(g, g.owner[i]);
    }
  }

  // ---------- the tables ----------

  /** The rows as the operations change them, statement by statement. */
  class IdentityStore {
    var contacts: map<int, Contact>
    var owner: map<Identity, int>
    var messages: map<MessageKey, Message>
    var next: int

    ghost function Rows(): Graph
      reads this
    {
      Graph(contacts, owner, messages, next)
    }

    constructor ()
      ensures Rows() == EMPTY
    {
      contacts, owner, messages, next := map[], map[], map[], 0;
    }

    method CreateContact(name: string, isVip: bool) returns (id: int)
      modifies this
      ensures id == old(next)
      ensures Rows() ==
                old(Rows()).(contacts := old(contacts)[id := Contact(name, isVip, false)], next := id + 1)
    {
      id := next;
      contacts := contacts[id := Contact(name, isVip, false)];
      next := next + 1;
    }

    method ResolveIdentity(id: Identity, name: string) returns (contact: int)
      modifies this
      ensures Resolved(Rows(), contact) == Resolve(old(Rows()), id, name)
    {
      if id in owner { return owner[id]; }
      contact := CreateContact(name, false);
      owner := owner[id := contact];
    }

    method CreateMessage(key: MessageKey, m: Message)
      modifies this
      ensures Rows() == Store(old(Rows()), key, m)
    {
      messages := messages[key := m];
    }

    method SplitContactRows(contact: int, ids: set<Identity>) returns (outcome: SplitOutcome)
      modifies this
      ensures SplitResult(Rows(), outcome) == Split(old(Rows()), contact, ids)
    {
      if contact !in contacts { return ContactNotFound; }
      var moving := set i | i in ids && i in owner && owner[i] == contact;
      assert moving == ids * IdentitiesOf(Rows(), contact);
      if moving == {} { return NoIdentitiesToSplit; }
      var newContact := CreateContact(contacts[contact].name, contacts[contact].isVip);
      owner := map i | i in owner :: if i in moving then newContact else owner[i];
      var providers := set i | i in moving :: i.provider;
      messages := map k | k in messages ::
        if messages[k].sender == By(contact) && k.thread.provider in providers
        then messages[k].(sender := By(newContact)) else messages[k];
      outcome := SplitOff(newContact);
    }

    method ApproveMerge(a: int, b: int)
      requires a in contacts && b in contacts
      modifies this
      ensures Rows() == Absorb(old(Rows()), a, b)
    {
      var merged := contacts[b];
      owner := map i | i in owner :: if owner[i] == b then a else owner[i];
      messages := map k | k in messages ::
        if messages[k].sender == By(b) then messages[k].(sender := By(a)) else messages[k];
      if merged.isVip {
        contacts := contacts[a := contacts[a].(isVip := true)];
      }
      contacts := contacts[b := contacts[b].(deleted := true)];
    }
  }
}
