/**
 * Updating an automation rule: how a partial body is merged with the stored rule and validated, and the conditional
 * write whose read and write are separate statements.
 */
module Rules {
  import opened Basics
  import opened Text
  import opened ETag

  // ---------- bodies ----------

  /** A parsed JSON value; `Absent` is a missing property. */
  datatype Json =
    | Absent
    | Null
    | Bool(b: bool)
    | Num(n: real)
    | Str(s: string)
    | Arr(items: seq<Json>)
    | Obj(fields: map<string, Json>)

  type Body = map<string, Json>

  predicate Truthy(v: Json) {
    match v
    case Absent => false
    case Null => false
    case Bool(b) => b
    case Num(n) => n != 0.0
    case Str(s) => s != ""
    case _ => true
  }

  predicate Nullish(v: Json) { v.Absent? || v.Null? }

  /** `v ?? d` */
  function OrElse(v: Json, d: Json): Json { if Nullish(v) then d else v }

  /** Falsy are a missing value, null, false, zero and the empty string; nullish are only the first two. */
  lemma TruthinessMeaning(v: Json)
    ensures !Truthy(v) <==> v == Absent || v == Null || v == Bool(false) || v == Num(0.0) || v == Str("")
    ensures Nullish(v) <==> v == Absent || v == Null
  {
  }

  function At(body: Body, k: string): Json { if k in body then body[k] else Absent }

  function Field(v: Json, k: string): Json { if v.Obj? && k in v.fields then v.fields[k] else Absent }

  // ---------- validation ----------

  const REGISTERED: seq<string> := ["message.received", "time.no_reply_after"]

  predicate ValidType(t: Json) {
    Field(t, "type").Str? && Field(t, "type").s in REGISTERED
  }

  predicate ValidParams(t: Json) {
    Field(t, "type") == Str("time.no_reply_after") ==>
      Field(Field(t, "params"), "hours").Num? && Field(Field(t, "params"), "hours").n > 0.0
  }

  predicate ValidTrigger(t: Json) { ValidType(t) && ValidParams(t) }

  predicate ValidConditions(v: Json) {
    if v.Obj? && "op" in v.fields then
      && v.fields["op"] in [Str("AND"), Str("OR"), Str("NOT")]
      && "children" in v.fields
      && v.fields["children"].Arr?
      && forall i :: 0 <= i < |v.fields["children"].items| ==> ValidConditions(v.fields["children"].items[i])
    else Field(v, "field").Str? && Field(v, "operator").Str?
  }

  predicate ValidActions(v: Json) {
    v.Arr? && v.items != [] && forall i :: 0 <= i < |v.items| ==> Field(v.items[i], "type").Str?
  }

  predicate ValidName(v: Json) { v.Str? && Trim(v.s) != "" }

  /** A stored rule without its version. `triggerType` is the indexed copy of the trigger's type. */
  datatype Content = Content(
    name: string, isEnabled: bool, priority: real, triggerType: string, trigger: Json, conditions: Json, actions: Json)

  datatype Error = NameRequired | InvalidTrigger | InvalidTriggerParams | InvalidConditions | InvalidActions

  datatype Validation = Valid(content: Content) | Invalid(error: Error)

  /** `validateRuleInput` and the row written from its result. */
  function Validate(name: Json, isEnabled: Json, priority: Json, trigger: Json, conditions: Json, actions: Json):
    Validation
  {
    if !ValidName(name) then Invalid(NameRequired)
    else if !ValidType(trigger) then Invalid(InvalidTrigger)
    else if !ValidParams(trigger) then Invalid(InvalidTriggerParams)
    else if !ValidConditions(conditions) then Invalid(InvalidConditions)
    else if !ValidActions(actions) then Invalid(InvalidActions)
    else
      Valid(Content(
        Trim(name.s),
        if isEnabled.Bool? then isEnabled.b else true,
        if priority.Num? then priority.n else 0.0,
        Field(trigger, "type").s, trigger, conditions, actions))
  }

  /** A body that names none of the four larger fields is an enable, disable or priority edit. */
  predicate IsFullEdit(body: Body) {
    || Truthy(At(body, "trigger"))
    || Truthy(At(body, "conditions"))
    || Truthy(At(body, "actions"))
    || Truthy(At(body, "name"))
  }

  /** `input` in `update`: the body laid over the rule that was read. */
  function Merge(existing: Content, body: Body): Validation {
    var isEnabled := if At(body, "isEnabled").Bool? then At(body, "isEnabled").b else existing.isEnabled;
    var priority := if At(body, "priority").Num? then At(body, "priority").n else existing.priority;
    if IsFullEdit(body) then
      Validate(
        OrElse(At(body, "name"), Str(existing.name)), Bool(isEnabled), Num(priority),
        OrElse(At(body, "trigger"), existing.trigger),
        OrElse(At(body, "conditions"), existing.conditions),
        OrElse(At(body, "actions"), existing.actions))
    else
      Valid(existing.(isEnabled := isEnabled, priority := priority,
                      triggerType :=
                        if Field(existing.trigger, "type").Str? then Field(existing.trigger, "type").s else ""))
  }

  /** `create`: the whole body is validated, a missing flag means enabled and a missing priority means 0. */
  function Create(body: Body): Validation {
    Validate(
      At(body, "name"), At(body, "isEnabled"), At(body, "priority"), At(body, "trigger"), At(body, "conditions"),
      At(body, "actions"))
  }

  /** What is created, and which of several faults is reported. */
  lemma CreateMeaning(body: Body)
    ensures var r := Create(body);
            && (r == Invalid(NameRequired) <==> !ValidName(At(body, "name")))
            && (r == Invalid(InvalidTrigger) <==> ValidName(At(body, "name")) && !ValidType(At(body, "trigger")))
            && (r == Invalid(InvalidTriggerParams) <==>
                  ValidName(At(body, "name")) && ValidType(At(body, "trigger")) && !ValidParams(At(body, "trigger")))
            && (r == Invalid(InvalidConditions) <==>
                  && ValidName(At(body, "name")) && ValidTrigger(At(body, "trigger"))
                  && !ValidConditions(At(body, "conditions")))
            && (r == Invalid(InvalidActions) <==>
                  && ValidName(At(body, "name")) && ValidTrigger(At(body, "trigger"))
                  && ValidConditions(At(body, "conditions")) && !ValidActions(At(body, "actions")))
            && (r.Valid? ==>
                  && At(body, "name").Str? && r.content.name == Trim(At(body, "name").s)
                  && r.content.isEnabled == (At(body, "isEnabled") != Bool(false))
                  && r.content.priority == (if At(body, "priority").Num? then At(body, "priority").n else 0.0)
                  && r.content.trigger == At(body, "trigger") && r.content.conditions == At(body, "conditions")
                  && r.content.actions == At(body, "actions")
                  && At(r.content.trigger.fields, "type") == Str(r.content.triggerType))
  {
    hide Trim, ValidConditions;
  }

  /** What every stored rule satisfies. */
  predicate WellFormed(c: Content) {
    && c.name != "" && Trim(c.name) == c.name
    && ValidTrigger(c.trigger) && ValidConditions(c.conditions) && ValidActions(c.actions)
    && c.triggerType == Field(c.trigger, "type").s
  }

  // ---------- what the checks accept ----------

  /** A trigger of a registered type is accepted, the timed one exactly with a positive number of hours. */
  lemma TriggerMeaning(kind: string, hours: Json, fields: map<string, Json>)
    requires "type" in fields && fields["type"] == Str(kind)
    ensures ValidTrigger(Obj(fields["params" := Obj(map["hours" := hours])])) <==>
              kind == "message.received" || (kind == "time.no_reply_after" && hours.Num? && hours.n > 0.0)
    ensures "params" !in fields ==> (ValidTrigger(Obj(fields)) <==> kind == "message.received")
    ensures !ValidTrigger(Absent) && !ValidTrigger(Null) && !ValidTrigger(Str(kind)) && !ValidTrigger(Obj(map[]))
  {
    var t := Obj(fields["params" := Obj(map["hours" := hours])]);
    assert Field(t, "type") == Str(kind) && Field(Field(t, "params"), "hours") == hours;
    assert Field(Obj(fields), "type") == Str(kind);
    assert kind in REGISTERED <==> kind == "message.received" || kind == "time.no_reply_after";
  }

  /** A condition is AND, OR or NOT of conditions, or a field with an operator; nothing else is accepted. */
  lemma ConditionsMeaning(op: string, children: seq<Json>, field: Json, operator: Json)
    ensures ValidConditions(Obj(map["op" := Str(op), "children" := Arr(children)])) <==>
              op in ["AND", "OR", "NOT"] && forall c :: c in children ==> ValidConditions(c)
    ensures ValidConditions(Obj(map["field" := field, "operator" := operator])) <==> field.Str? && operator.Str?
    ensures !ValidConditions(Obj(map["op" := Str(op)])) && !ValidConditions(Arr(children)) && !ValidConditions(Null)
    ensures !ValidConditions(Obj(map["field" := field])) && !ValidConditions(Obj(map["operator" := operator]))
  {
    var node := Obj(map["op" := Str(op), "children" := Arr(children)]);
    assert node.fields["children"] == Arr(children) && node.fields["op"] == Str(op);
    assert Str(op) in [Str("AND"), Str("OR"), Str("NOT")] <==> op in ["AND", "OR", "NOT"];
    assert (forall c :: c in children ==> ValidConditions(c)) <==>
      forall i :: 0 <= i < |children| ==> ValidConditions(children[i]);
  }

  /** Actions are a list of at least one, each with a type. */
  lemma ActionsMeaning(kinds: seq<string>, other: Json)
    ensures ValidActions(Arr(seq(|kinds|, i requires 0 <= i < |kinds| => Obj(map["type" := Str(kinds[i])]))))
       <==> kinds != []
    ensures !ValidActions(Obj(map["type" := other])) && !ValidActions(Absent) && !ValidActions(Null)
    ensures ValidActions(Arr([Obj(map["type" := other])])) <==> other.Str?
    ensures !ValidActions(Arr([Obj(map["type" := Str("a")]), Null]))
  {
    var items := seq(|kinds|, i requires 0 <= i < |kinds| => Obj(map["type" := Str(kinds[i])]));
    assert forall i :: 0 <= i < |items| ==> Field(items[i], "type") == Str(kinds[i]);
    assert Field(Obj(map["type" := other]), "type") == other;
    assert Arr([Obj(map["type" := other])]).items[0] == Obj(map["type" := other]);
    assert Arr([Obj(map["type" := Str("a")]), Null]).items[1] == Null;
  }

  lemma ValidatedIsWellFormed(n: Json, e: Json, p: Json, t: Json, c: Json, a: Json)
    ensures Validate(n, e, p, t, c, a).Valid? ==> WellFormed(Validate(n, e, p, t, c, a).content)
  {
    if ValidName(n) { TrimIsIdempotent(n.s); }
    hide Trim, ValidConditions;
  }

  lemma MergeKeepsWellFormed(existing: Content, body: Body)
    requires WellFormed(existing) && Merge(existing, body).Valid?
    ensures WellFormed(Merge(existing, body).content)
  {
    forall n, e, p, t, c, a
      ensures Validate(n, e, p, t, c, a).Valid? ==> WellFormed(Validate(n, e, p, t, c, a).content)
    {
      ValidatedIsWellFormed(n, e, p, t, c, a);
    }
    hide Validate, Trim, ValidConditions, ValidActions, ValidTrigger;
  }

  /** What an accepted body does to each field, whichever way it was processed: unmentioned fields are kept. */
  lemma MergeMeaning(existing: Content, body: Body)
    requires WellFormed(existing) && Merge(existing, body).Valid?
    ensures var u := Merge(existing, body).content;
            && u.name == (
                 if At(body, "name").Str? && At(body, "name").s != "" then Trim(At(body, "name").s) else existing.name)
            && u.isEnabled == (if At(body, "isEnabled").Bool? then At(body, "isEnabled").b else existing.isEnabled)
            && u.priority == (if At(body, "priority").Num? then At(body, "priority").n else existing.priority)
            && u.trigger == (if Truthy(At(body, "trigger")) then At(body, "trigger") else existing.trigger)
            && u.conditions == (if Truthy(At(body, "conditions")) then At(body, "conditions") else existing.conditions)
            && u.actions == (if Truthy(At(body, "actions")) then At(body, "actions") else existing.actions)
            && u.triggerType == Field(u.trigger, "type").s
  {
    EmptyIsNoName();
    hide Trim, ValidParams;
  }

  lemma EmptyIsNoName()
    ensures !ValidName(Str(""))
  {
  }

  /** A body is rejected exactly if it is a full edit and a field it mentions, even falsely, is not valid. */
  lemma RejectedIff(existing: Content, body: Body)
    requires WellFormed(existing)
    ensures Merge(existing, body).Invalid? <==>
              && IsFullEdit(body)
              && (|| (!Nullish(At(body, "name")) && !ValidName(At(body, "name")))
                  || (!Nullish(At(body, "trigger")) && !ValidTrigger(At(body, "trigger")))
                  || (!Nullish(At(body, "conditions")) && !ValidConditions(At(body, "conditions")))
                  || (!Nullish(At(body, "actions")) && !ValidActions(At(body, "actions"))))
  {
    hide Trim, ValidConditions, ValidActions, ValidType, ValidParams, At;
  }

  /** Applying an accepted body a second time changes nothing. */
  lemma MergeTwice(existing: Content, body: Body)
    requires WellFormed(existing) && Merge(existing, body).Valid?
    ensures Merge(Merge(existing, body).content, body) == Merge(existing, body)
  {
    var u := Merge(existing, body).content;
    MergeKeepsWellFormed(existing, body);
    MergeMeaning(existing, body);
    RejectedIff(existing, body);
    RejectedIff(u, body);
    MergeMeaning(u, body);
    hide Merge, Trim, WellFormed, ValidConditions, ValidActions, ValidTrigger, At, Field;
  }

  // ---------- one update ----------

  datatype Row = Row(content: Content, version: nat, deleted: bool)

  /** An update between its read and its write: the version declared in If-Match, the body, the row read, the merge. */
  datatype Pending = Pending(declared: int, body: Body, existing: Row, input: Content)

  datatype Begun = PreconditionRequired | NotFound | BadRequest(error: Error) | Proceed(p: Pending)

  function Begin(row: Row, ifMatch: Option<string>, body: Body): Begun {
    var header := ParseETagHeader(ifMatch);
    if header.None? then PreconditionRequired
    else if row.deleted then NotFound
    else
      var m := Merge(row.content, body);
      if m.Invalid? then BadRequest(m.error)
      else Proceed(Pending(VersionNumber(header.value), body, row, m.content))
  }

  /** `updateMany({ where: { id, version }, ... })`: the row may have been deleted or changed since the read. */
  function Write(row: Row, p: Pending): Row {
    if row.version == p.declared then row.(content := p.input, version := row.version + 1) else row
  }

  /** Left alone, an update with a tag stores the merged rule under the next version exactly if the tag is the row's. */
  lemma UndisturbedUpdate(row: Row, v: nat, body: Body)
    requires !row.deleted && WellFormed(row.content) && Merge(row.content, body).Valid?
    ensures var b := Begin(row, Some(EtagFor(Decimal(v))), body);
            && b.Proceed?
            && Write(row, b.p) == if v == row.version then Row(Merge(row.content, body).content, v + 1, false) else row
    ensures Begin(row, None, body) == PreconditionRequired && Begin(row, Some(""), body) == PreconditionRequired
    ensures forall bad :: Merge(row.content, bad).Invalid? ==>
              Begin(row, Some(EtagFor(Decimal(v))), bad) == BadRequest(Merge(row.content, bad).error)
  {
    TagDeclaresVersion(v, v);
    PlainHeader(row, v, body, Merge(row.content, body).content);
    hide EtagFor, Decimal, Merge, WellFormed, VersionNumber;
  }

  // ---------- interleaved updates ----------

  /**
   * The row, the updates in progress, every content the row has had, the write that led to each but the first, and
   * the versions any response has shown to a client.
   */
  datatype Server = Server(
    row: Row, inflight: seq<Pending>, contents: seq<Content>, writes: seq<Pending>, first: nat, shown: set<nat>)

  datatype Event = Get | Start(ifMatch: Option<string>, body: Body) | Commit(i: nat) | Delete

  function Step(s: Server, e: Event): Server {
    match e
    case Get => if s.row.deleted then s else s.(shown := s.shown + {s.row.version})
    case Start(ifMatch, body) =>
      var b := Begin(s.row, ifMatch, body);
      if b.Proceed? then s.(inflight := s.inflight + [b.p]) else s
    case Commit(i) =>
      if i >= |s.inflight| then s
      else
        var p := s.inflight[i];
        var row := Write(s.row, p);
        var u := s.(row := row, inflight := s.inflight[..i] + s.inflight[i + 1..], shown := s.shown + {row.version});
        if s.row.version == p.declared then u.(contents := s.contents + [p.input], writes := s.writes + [p]) else u
    case Delete => s.(row := s.row.(deleted := true))
  }

  function Run(s: Server, es: seq<Event>): Server
    decreases es
  {
    if es == [] then s else Run(Step(s, es[0]), es[1..])
  }

  function Created(content: Content, version: nat): Server {
    Server(Row(content, version, false), [], [content], [], version, {})
  }

  /** The content the row had at a version. */
  predicate WasContent(s: Server, version: int, c: Content) {
    s.first <= version < s.first + |s.contents| && s.contents[version - s.first] == c
  }

  ghost predicate Recorded(s: Server, p: Pending) {
    WasContent(s, p.existing.version, p.existing.content) && Merge(p.existing.content, p.body) == Valid(p.input)
  }

  ghost predicate Kept(s: Server) {
    && |s.contents| == |s.writes| + 1
    && s.row.version == s.first + |s.writes|
    && s.row.content == s.contents[|s.writes|]
    && (forall c :: c in s.contents ==> WellFormed(c))
    && (forall v :: v in s.shown ==> v <= s.row.version)
  }

  ghost predicate Merged(s: Server) {
    && (forall p :: p in s.inflight ==> Recorded(s, p))
    && (forall k :: 0 <= k < |s.writes| ==>
          && Recorded(s, s.writes[k]) && s.writes[k].declared == s.first + k
          && s.writes[k].existing.version <= s.first + k
          && k + 1 < |s.contents| && s.contents[k + 1] == s.writes[k].input)
  }

  lemma RecordedLater(s: Server, u: Server, p: Pending)
    requires Recorded(s, p) && u.first == s.first && s.contents <= u.contents
    ensures Recorded(u, p)
  {
  }

  lemma RemainingMember(s: seq<Pending>, i: nat, p: Pending)
    requires i < |s| && p in s[..i] + s[i + 1..]
    ensures p in s
  {
  }

  lemma CommitKeepsKept(s: Server, i: nat)
    requires Kept(s) && Merged(s) && i < |s.inflight|
    ensures Kept(Step(s, Commit(i)))
  {
    var p := s.inflight[i];
    assert p in s.inflight;
    assert Recorded(s, p) && p.existing.content in s.contents;
    MergeKeepsWellFormed(p.existing.content, p.body);
    hide WellFormed, Merge;
  }

  lemma CommitKeepsMerged(s: Server, i: nat)
    requires Kept(s) && Merged(s) && i < |s.inflight|
    ensures Merged(Step(s, Commit(i)))
  {
    hide WellFormed, Merge;
    var u := Step(s, Commit(i));
    var p := s.inflight[i];
    assert p in s.inflight;
    forall q | q in s.inflight || q in s.writes ensures Recorded(u, q) { RecordedLater(s, u, q); }
    forall q | q in u.inflight ensures q in s.inflight { RemainingMember(s.inflight, i, q); }
  }

  lemma StepKeepsHistory(s: Server, e: Event)
    requires Kept(s) && Merged(s)
    ensures Kept(Step(s, e)) && Merged(Step(s, e))
  {
    if e.Commit? && e.i < |s.inflight| {
      CommitKeepsKept(s, e.i);
      CommitKeepsMerged(s, e.i);
      hide *;
    } else {
      OtherKeepsHistory(s, e);
    }
  }

  lemma OtherKeepsHistory(s: Server, e: Event)
    requires Kept(s) && Merged(s) && !(e.Commit? && e.i < |s.inflight|)
    ensures Kept(Step(s, e)) && Merged(Step(s, e))
  {
    hide WellFormed, Merge, ParseETagHeader, VersionNumber, Recorded;
    if e.Start? { StartIsRecorded(s, e.ifMatch, e.body); }
    var u := Step(s, e);
    forall p | Recorded(s, p) ensures Recorded(u, p) { RecordedLater(s, u, p); }
  }

  lemma StartIsRecorded(s: Server, ifMatch: Option<string>, body: Body)
    requires Kept(s)
    ensures Begin(s.row, ifMatch, body).Proceed? ==> Recorded(s, Begin(s.row, ifMatch, body).p)
  {
    hide WellFormed, Merge, ParseETagHeader, VersionNumber;
  }

  lemma {:induction false} RunKeepsHistory(s: Server, es: seq<Event>)
    requires Kept(s) && Merged(s)
    ensures Kept(Run(s, es)) && Merged(Run(s, es))
    decreases es
  {
    if es == [] {
    } else {
      StepKeepsHistory(s, es[0]);
      hide Kept, Merged, Step;
      RunKeepsHistory(Step(s, es[0]), es[1..]);
    }
  }

  /**
   * Whatever versions the clients declare: the version is the first one plus the number of successes, and the k-th
   * success stored its body merged with the rule as it was at the version its request read, which is the declared
   * version exactly if the request did not declare a version later than the one it read.
   */
  lemma EveryWriteMergesWhatItRead(content: Content, version: nat, es: seq<Event>, k: nat)
    requires WellFormed(content) && k < |Run(Created(content, version), es).writes|
    ensures var s := Run(Created(content, version), es);
            var p := s.writes[k];
            && |s.contents| == |s.writes| + 1 && s.row.version == version + |s.writes| && s.first == version
            && version <= p.existing.version <= p.declared == version + k
            && Merge(s.contents[p.existing.version - version], p.body) == Valid(s.contents[k + 1])
            && (p.existing.version == p.declared <==> p.declared <= p.existing.version)
  {
    RunKeepsHistory(Created(content, version), es);
    FirstIsFixed(Created(content, version), es);
    hide WellFormed, Merge;
  }

  lemma {:induction false} FirstIsFixed(s: Server, es: seq<Event>)
    ensures Run(s, es).first == s.first
    decreases es
  {
    if es == [] {
    } else {
      FirstIsFixed(Step(s, es[0]), es[1..]);
    }
  }

  // ---------- clients that declare what they were shown ----------

  predicate Declares(ifMatch: Option<string>, versions: set<nat>) {
    var header := ParseETagHeader(ifMatch);
    header.Some? ==> VersionNumber(header.value) in versions
  }

  predicate Honest(s: Server, e: Event) {
    e.Start? ==> Declares(e.ifMatch, s.shown)
  }

  predicate AllHonest(s: Server, es: seq<Event>)
    decreases es
  {
    es != [] ==> Honest(s, es[0]) && AllHonest(Step(s, es[0]), es[1..])
  }

  ghost predicate NoGuess(s: Server) {
    && (forall p :: p in s.inflight ==> p.declared <= p.existing.version)
    && (forall k :: 0 <= k < |s.writes| ==> s.writes[k].declared <= s.writes[k].existing.version)
  }

  lemma HonestStepNoGuess(s: Server, e: Event)
    requires Kept(s) && NoGuess(s) && Honest(s, e)
    ensures NoGuess(Step(s, e))
  {
    hide WellFormed, Merge, ParseETagHeader, VersionNumber;
    if e.Commit? && e.i < |s.inflight| {
      var u := Step(s, e);
      assert s.inflight[e.i] in s.inflight;
      forall q | q in u.inflight ensures q in s.inflight { RemainingMember(s.inflight, e.i, q); }
    }
  }

  lemma {:induction false} HonestRun(s: Server, es: seq<Event>)
    requires Kept(s) && Merged(s) && NoGuess(s) && AllHonest(s, es)
    ensures NoGuess(Run(s, es))
    decreases es
  {
    if es == [] {
    } else {
      HonestStepNoGuess(s, es[0]);
      StepKeepsHistory(s, es[0]);
      hide Kept, Merged, Step, NoGuess, Honest;
      HonestRun(Step(s, es[0]), es[1..]);
    }
  }

  /**
   * If clients only declare versions a response has shown, the history is a chain: version k+1 is patch k merged
   * with version k, for every interleaving of reads, writes and deletions.
   */
  lemma NoLostUpdate(content: Content, version: nat, es: seq<Event>, k: nat)
    requires WellFormed(content) && AllHonest(Created(content, version), es)
    requires k < |Run(Created(content, version), es).writes|
    ensures var s := Run(Created(content, version), es);
            && |s.contents| == |s.writes| + 1 && s.row.version == version + |s.writes|
            && WellFormed(s.contents[k])
            && Merge(s.contents[k], s.writes[k].body) == Valid(s.contents[k + 1])
            && s.writes[k].declared == version + k
  {
    RunKeepsHistory(Created(content, version), es);
    EveryWriteMergesWhatItRead(content, version, es, k);
    HonestRun(Created(content, version), es);
    hide WellFormed, Merge, AllHonest;
  }

  lemma SmallEdits(c: Content, x: real, enabled: bool)
    requires WellFormed(c)
    ensures Merge(c, map["priority" := Num(x)]) == Valid(c.(priority := x))
    ensures Merge(c, map["isEnabled" := Bool(enabled)]) == Valid(c.(isEnabled := enabled))
  {
    hide Trim, ValidConditions, ValidActions, Validate;
  }

  lemma PlainHeader(row: Row, v: nat, body: Body, input: Content)
    requires Merge(row.content, body) == Valid(input) && !row.deleted
    ensures Begin(row, Some(EtagFor(Decimal(v))), body) == Proceed(Pending(v, body, row, input))
  {
    TagDeclaresVersion(v, v);
    hide ParseETagHeader, EtagFor, Decimal, VersionNumber, Merge;
  }

  /** A client that guesses the next version right undoes a change it has never seen, without mentioning it. */
  lemma GuessingAheadLosesUpdate(c: Content, v: nat, x: real, enabled: bool)
    requires WellFormed(c) && x != c.priority
    ensures var es := [
              Start(Some(EtagFor(Decimal(v))), map["priority" := Num(x)]),
              Start(Some(EtagFor(Decimal(v + 1))), map["isEnabled" := Bool(enabled)]),
              Commit(0), Commit(0)];
            var s := Run(Created(c, v), es);
            && s.row.version == v + 2 && |s.contents| == 3
            && s.contents[1].priority == x && s.row.content.priority == c.priority
  {
    var b1, b2 := map["priority" := Num(x)], map["isEnabled" := Bool(enabled)];
    var h1, h2 := Some(EtagFor(Decimal(v))), Some(EtagFor(Decimal(v + 1)));
    var s0 := Created(c, v);
    var c1, c2 := c.(priority := x), c.(isEnabled := enabled);
    SmallEdits(c, x, enabled);
    PlainHeader(s0.row, v, b1, c1);
    PlainHeader(s0.row, v + 1, b2, c2);
    FourSteps(s0, Start(h1, b1), Start(h2, b2), Commit(0), Commit(0));
    RacingWrites(s0, h1, b1, Pending(v, b1, s0.row, c1), h2, b2, Pending(v + 1, b2, s0.row, c2));
    hide Step, Run, Begin, Merge, WellFormed, EtagFor, Decimal;
  }

  /** Two updates read the same row, and the second declares the version the first will produce. */
  lemma RacingWrites(s: Server, h1: Option<string>, b1: Body, p1: Pending, h2: Option<string>, b2: Body, p2: Pending)
    requires s.inflight == [] && Begin(s.row, h1, b1) == Proceed(p1) && Begin(s.row, h2, b2) == Proceed(p2)
    requires p1.declared == s.row.version && p2.declared == s.row.version + 1
    ensures var u := Step(Step(Step(Step(s, Start(h1, b1)), Start(h2, b2)), Commit(0)), Commit(0));
            && u.contents == s.contents + [p1.input] + [p2.input]
            && u.row == Row(p2.input, s.row.version + 2, s.row.deleted)
  {
    hide Begin;
    var s2 := Step(Step(s, Start(h1, b1)), Start(h2, b2));
    assert s2.inflight == [p1, p2];
    var s3 := Step(s2, Commit(0));
    assert s3.inflight == [p2];
  }

  lemma FourSteps(s: Server, a: Event, b: Event, c: Event, d: Event)
    ensures Run(s, [a, b, c, d]) == Step(Step(Step(Step(s, a), b), c), d)
  {
    hide Step;
    assert [a, b, c, d][1..] == [b, c, d];
    assert [b, c, d][1..] == [c, d];
    assert [c, d][1..] == [d];
    assert [d][1..] == [];
    var s2 := Step(Step(s, a), b);
    assert Run(s2, [c, d]) == Run(Step(s2, c), [d]) == Step(Step(s2, c), d);
  }

  /** Reading a rule that is not deleted, and every answered write, shows a client the version as it is then. */
  lemma ResponsesShowTheVersion(s: Server, i: nat)
    ensures !s.row.deleted ==> Step(s, Get).shown == s.shown + {s.row.version} && Step(s, Get).row == s.row
    ensures i < |s.inflight| ==> Step(s, Commit(i)).row.version in Step(s, Commit(i)).shown
    ensures Step(s, Delete).row == Row(s.row.content, s.row.version, true)
  {
  }

  /** The write ignores the deletion flag: an update that read before a deletion still goes through after it. */
  lemma DeletedRuleIsStillWritten(row: Row, ifMatch: Option<string>, body: Body)
    requires Begin(row, ifMatch, body).Proceed?
    ensures var p := Begin(row, ifMatch, body).p;
            var deleted := row.(deleted := true);
            && Begin(deleted, ifMatch, body) == NotFound
            && (Write(deleted, p) != deleted <==> p.declared == row.version)
  {
    hide Merge, ParseETagHeader, VersionNumber;
    var p := Begin(row, ifMatch, body).p;
    assert p.declared == row.version ==> Write(row.(deleted := true), p).version == row.version + 1;
  }

  // ---------- the controller ----------

  class RulesController {
    var content: Content
    var version: nat
    var deleted: bool

    ghost function Stored(): Row
      reads this
    {
      Row(content, version, deleted)
    }

    constructor (content: Content)
      ensures Stored() == Row(content, 1, false)
    {
      this.content, version, deleted := content, 1, false;
    }

    /** `update` up to its write. */
    method ReadAndMerge(ifMatch: Option<string>, body: Body) returns (b: Begun)
      ensures b == Begin(Stored(), ifMatch, body)
    {
      var header := ParseETagHeader(ifMatch);
      if header.None? { return PreconditionRequired; }
      if deleted { return NotFound; }
      var m := Merge(content, body);
      if m.Invalid? { return BadRequest(m.error); }
      b := Proceed(Pending(VersionNumber(header.value), body, Row(content, version, deleted), m.content));
    }

    /** The write and the tag of the response. */
    method ConditionalWrite(p: Pending) returns (ok: bool, etag: string)
      modifies this
      ensures Stored() == Write(old(Stored()), p)
      ensures ok == (old(version) == p.declared) && etag == EtagFor(Decimal(version))
    {
      ok := version == p.declared;
      if ok {
        content := p.input;
        version := version + 1;
      }
      etag := EtagFor(Decimal(version));
    }

    method Remove() returns (found: bool)
      modifies this
      ensures found == !old(deleted) && Stored() == old(Stored()).(deleted := true)
    {
      if deleted { return false; }
      deleted := true;
      found := true;
    }
  }
}
