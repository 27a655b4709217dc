/**
 * Notification preferences of one user: created by the first update, then written conditionally. Unlike a rule's, the
 * update statement itself names only the mentioned fields.
 */
module Preferences {
  import opened Basics
  import opened ETag

  /** A field of the request body: left out, or given (a time may be given as null). */
  datatype Given<T> = Unset | Set(value: T)

  datatype Patch = Patch(
    start: Given<Option<string>>, end: Given<Option<string>>, vipOverride: Given<bool>, keywords: Given<seq<string>>)

  datatype Settings = Settings(start: Option<string>, end: Option<string>, vipOverride: bool, keywords: seq<string>)

  datatype Row = Row(settings: Settings, version: nat)

  const DEFAULTS: Settings := Settings(None, None, true, [])

  function Pick<T>(g: Given<T>, old': T): T { if g.Set? then g.value else old' }

  /** The SET clause of the update, and what `create` fills in when laid over the defaults. */
  function Lay(s: Settings, p: Patch): Settings {
    Settings(
      Pick(p.start, s.start), Pick(p.end, s.end), Pick(p.vipOverride, s.vipOverride), Pick(p.keywords, s.keywords))
  }

  predicate IsDigit(c: char) { '0' <= c <= '9' }

  /** HH:mm on a 24-hour clock. */
  predicate IsTime(s: string) {
    && |s| == 5 && s[2] == ':'
    && ((s[0] in "01" && IsDigit(s[1])) || (s[0] == '2' && '0' <= s[1] <= '3'))
    && '0' <= s[3] <= '5' && IsDigit(s[4])
  }

  function TwoDigits(n: nat): string
    requires n < 60
  {
    ["0123456789"[n / 10], "0123456789"[n % 10]]
  }

  /** The accepted times are those of the 24 * 60 minutes of a day, each with two digits. */
  lemma TimesOfDay(s: string)
    ensures IsTime(s) <==> exists h: nat, m: nat :: h < 24 && m < 60 && s == TwoDigits(h) + ":" + TwoDigits(m)
  {
    if IsTime(s) {
      var h := (s[0] - '0') as nat * 10 + (s[1] - '0') as nat;
      var m := (s[3] - '0') as nat * 10 + (s[4] - '0') as nat;
      assert h < 24 && m < 60;
      DigitOf(s[0], h / 10);
      DigitOf(s[1], h % 10);
      DigitOf(s[3], m / 10);
      DigitOf(s[4], m % 10);
      assert s == TwoDigits(h) + ":" + TwoDigits(m);
    }
    forall h: nat, m: nat | h < 24 && m < 60 ensures IsTime(TwoDigits(h) + ":" + TwoDigits(m)) {
      DigitOf("0123456789"[h / 10], h / 10);
      DigitOf("0123456789"[h % 10], h % 10);
      DigitOf("0123456789"[m / 10], m / 10);
      DigitOf("0123456789"[m % 10], m % 10);
    }
  }

  lemma DigitOf(c: char, d: nat)
    requires d < 10
    ensures "0123456789"[d] == c <==> c == '0' + d as char
  {
  }

  predicate TimeAccepted(g: Given<Option<string>>) {
    g.Set? && g.value.Some? ==> IsTime(g.value.value)
  }

  // ---------- one update ----------

  /** An update past its checks: the version tag it declared, and whether it found a row. */
  datatype Pending = Pending(tag: string, patch: Patch, found: bool)

  datatype Begun = PreconditionRequired | InvalidTimeFormat | PreconditionFailed | Proceed(p: Pending)

  function Begin(row: Option<Row>, ifMatch: Option<string>, patch: Patch): Begun {
    var header := ParseETagHeader(ifMatch);
    if header.None? then PreconditionRequired
    else if !TimeAccepted(patch.start) || !TimeAccepted(patch.end) then InvalidTimeFormat
    else if row.None? && header.value != NOT_YET_CREATED then PreconditionFailed
    else Proceed(Pending(header.value, patch, row.Some?))
  }

  datatype Written = Created | UniqueViolation | Updated | LockFailure

  datatype Result = Result(row: Option<Row>, outcome: Written)

  /** The one statement that writes: `create` if no row was found, else the conditional update. */
  function Write(row: Option<Row>, p: Pending): Result {
    if !p.found then
      if row.Some? then Result(row, UniqueViolation) else Result(Some(Row(Lay(DEFAULTS, p.patch), 1)), Created)
    else if row.Some? && row.value.version == VersionNumber(p.tag) then
      Result(Some(Row(Lay(row.value.settings, p.patch), row.value.version + 1)), Updated)
    else Result(row, LockFailure)
  }

  // ---------- interleaved updates ----------

  /** `patches` are those that were written, in order. */
  datatype Server = Server(row: Option<Row>, inflight: seq<Pending>, patches: seq<Patch>)

  datatype Event = Start(ifMatch: Option<string>, patch: Patch) | Commit(i: nat)

  function Step(s: Server, e: Event): Server {
    match e
    case Start(ifMatch, patch) =>
      var b := Begin(s.row, ifMatch, patch);
      if b.Proceed? then s.(inflight := s.inflight + [b.p]) else s
    case Commit(i) =>
      if i >= |s.inflight| then s
      else
        var p := s.inflight[i];
        var r := Write(s.row, p);
        Server(r.row, s.inflight[..i] + s.inflight[i + 1..],
               if r.outcome.Created? || r.outcome.Updated? then s.patches + [p.patch] else s.patches)
  }

  function Run(s: Server, es: seq<Event>): Server
    decreases es
  {
    if es == [] then s else Run(Step(s, es[0]), es[1..])
  }

  const UNTOUCHED: Server := Server(None, [], [])

  /**
   * One client by itself: its first update with "new" creates the row from the defaults, an update with the row's tag
   * is laid over it, and with any other version's nothing is stored.
   */
  lemma OneUpdate(s: Server, patch: Patch, v: nat)
    requires s.inflight == [] && TimeAccepted(patch.start) && TimeAccepted(patch.end)
    ensures var tag := Some(EtagFor(if s.row.None? then NOT_YET_CREATED else Decimal(v)));
            var u := Step(Step(s, Start(tag, patch)), Commit(0));
            && u.inflight == []
            && (s.row.None? ==> u.row == Some(Row(Lay(DEFAULTS, patch), 1)) && u.patches == s.patches + [patch])
            && (s.row.Some? && v == s.row.value.version ==>
                  u.row == Some(Row(Lay(s.row.value.settings, patch), v + 1)) && u.patches == s.patches + [patch])
            && (s.row.Some? && v != s.row.value.version ==> u.row == s.row && u.patches == s.patches)
  {
    TagDeclaresVersion(v, v);
    NewIsNoVersion(v);
    hide ParseETagHeader, EtagFor, Decimal, VersionNumber, Lay, TimeAccepted;
    var tag := Some(EtagFor(if s.row.None? then NOT_YET_CREATED else Decimal(v)));
    var m := Step(s, Start(tag, patch));
    assert |m.inflight| == 1;
  }

  /** All patches laid over the defaults one after the other. */
  function LayAll(ps: seq<Patch>): Settings {
    if ps == [] then DEFAULTS else Lay(LayAll(ps[..|ps| - 1]), ps[|ps| - 1])
  }

  ghost predicate Chained(s: Server) {
    && (s.row.None? <==> s.patches == [])
    && (s.row.Some? ==> s.row.value == Row(LayAll(s.patches), |s.patches|))
    && (forall p :: p in s.inflight && !p.found ==> p.tag == NOT_YET_CREATED)
  }

  lemma StepKeepsChained(s: Server, e: Event)
    requires Chained(s)
    ensures Chained(Step(s, e))
  {
    hide ParseETagHeader, VersionNumber, Lay, IsTime;
    if e.Commit? && e.i < |s.inflight| {
      var p := s.inflight[e.i];
      var u := Step(s, e);
      if u.patches != s.patches {
        assert u.patches[..|u.patches| - 1] == s.patches;
        assert LayAll([]) == DEFAULTS;
      }
      forall q | q in u.inflight ensures q in s.inflight { }
    }
  }

  lemma {:induction false} RunKeepsChained(s: Server, es: seq<Event>)
    requires Chained(s)
    ensures Chained(Run(s, es))
    decreases es
  {
    if es == [] {
    } else {
      StepKeepsChained(s, es[0]);
      RunKeepsChained(Step(s, es[0]), es[1..]);
    }
  }

  /**
   * Whatever tags the clients send and however reads and writes interleave, no update is lost: the settings are all
   * successful patches laid over the defaults in order, and the version counts them.
   */
  lemma PreferencesNeverLoseAnUpdate(es: seq<Event>)
    ensures var s := Run(UNTOUCHED, es);
            if s.patches == [] then s.row.None?
            else s.row == Some(Row(LayAll(s.patches), |s.patches|))
  {
    RunKeepsChained(UNTOUCHED, es);
  }

  /** A field is as the last patch that mentioned it left it. */
  lemma {:induction false} UnmentionedStays(ps: seq<Patch>, k: nat)
    requires k <= |ps|
    ensures var u, w := LayAll(ps[..k]), LayAll(ps);
            && ((forall i :: k <= i < |ps| ==> ps[i].start.Unset?) ==> w.start == u.start)
            && ((forall i :: k <= i < |ps| ==> ps[i].end.Unset?) ==> w.end == u.end)
            && ((forall i :: k <= i < |ps| ==> ps[i].vipOverride.Unset?) ==> w.vipOverride == u.vipOverride)
            && ((forall i :: k <= i < |ps| ==> ps[i].keywords.Unset?) ==> w.keywords == u.keywords)
  {
    if k < |ps| {
      var front := ps[..|ps| - 1];
      assert front[..k] == ps[..k];
      UnmentionedStays(front, k);
    } else {
      assert ps[..k] == ps;
    }
  }

  /** A field whose last mention gave it a value has that value. */
  lemma LastMentionWins(ps: seq<Patch>, k: nat)
    requires 0 < k <= |ps|
    ensures var p, w := ps[k - 1], LayAll(ps);
            && (p.start.Set? && (forall i :: k <= i < |ps| ==> ps[i].start.Unset?) ==> w.start == p.start.value)
            && (p.end.Set? && (forall i :: k <= i < |ps| ==> ps[i].end.Unset?) ==> w.end == p.end.value)
            && (p.vipOverride.Set? && (forall i :: k <= i < |ps| ==> ps[i].vipOverride.Unset?) ==>
                  w.vipOverride == p.vipOverride.value)
            && (p.keywords.Set? && (forall i :: k <= i < |ps| ==> ps[i].keywords.Unset?) ==>
                  w.keywords == p.keywords.value)
  {
    UnmentionedStays(ps, k);
    assert ps[..k][..k - 1] == ps[..k - 1];
  }

  /** What a write that succeeds stores: the given values, and the defaults or the old values for the rest. */
  lemma WriteMeaning(row: Option<Row>, p: Pending)
    requires Write(row, p).outcome.Created? || Write(row, p).outcome.Updated?
    ensures var r := Write(row, p);
            var old' := if row.Some? then row.value.settings else Settings(None, None, true, []);
            && (row.None? <==> r.outcome.Created?)
            && r.row.Some? && r.row.value.version == (if row.Some? then row.value.version + 1 else 1)
            && r.row.value.settings.start == (if p.patch.start.Set? then p.patch.start.value else old'.start)
            && r.row.value.settings.end == (if p.patch.end.Set? then p.patch.end.value else old'.end)
            && r.row.value.settings.vipOverride ==
                 (if p.patch.vipOverride.Set? then p.patch.vipOverride.value else old'.vipOverride)
            && r.row.value.settings.keywords ==
                 (if p.patch.keywords.Set? then p.patch.keywords.value else old'.keywords)
  {
  }

  /** With a tag, an update is refused for its times exactly if one is given, not null, and no time of day. */
  lemma MalformedTimeIsRefused(row: Option<Row>, tag: string, patch: Patch)
    ensures Begin(row, Some(EtagFor(tag)), patch) == InvalidTimeFormat <==>
              || (patch.start.Set? && patch.start.value.Some? && !IsTime(patch.start.value.value))
              || (patch.end.Set? && patch.end.value.Some? && !IsTime(patch.end.value.value))
    ensures Begin(row, None, patch) == PreconditionRequired
  {
    PlainTag(tag);
    assert ParseETagHeader(None).None?;
    hide ParseETagHeader, EtagFor, IsTime;
  }

  /** Of any number of first updates that all found no row, only the first to write creates it. */
  lemma OnlyOneCreates(row: Option<Row>, p: Pending, q: Pending)
    requires !p.found && !q.found
    ensures Write(Write(row, p).row, q) == Result(Write(row, p).row, UniqueViolation)
  {
  }

  /** A "new" that finds a row is refused, and an update succeeds exactly if the tag it sent is the row's. */
  lemma UpdatesIffCurrent(row: Row, v: nat, patch: Patch)
    requires TimeAccepted(patch.start) && TimeAccepted(patch.end)
    ensures var b := Begin(Some(row), Some(EtagFor(Decimal(v))), patch);
            b.Proceed? && (Write(Some(row), b.p).outcome.Updated? <==> v == row.version)
    ensures var b := Begin(Some(row), Some(EtagFor(NOT_YET_CREATED)), patch);
            b.Proceed? && Write(Some(row), b.p) == Result(Some(row), LockFailure)
    ensures Begin(None, Some(EtagFor(Decimal(v))), patch) == PreconditionFailed
  {
    TagDeclaresVersion(v, v);
    NewIsNoVersion(v);
    hide ParseETagHeader, EtagFor, Decimal, VersionNumber;
  }

  // ---------- the controller ----------

  class PreferencesController {
    var row: Option<Row>

    constructor ()
      ensures row == None
    {
      row := None;
    }

    method Check(ifMatch: Option<string>, patch: Patch) returns (b: Begun)
      ensures b == Begin(row, ifMatch, patch)
    {
      var header := ParseETagHeader(ifMatch);
      if header.None? { return PreconditionRequired; }
      if !TimeAccepted(patch.start) || !TimeAccepted(patch.end) { return InvalidTimeFormat; }
      if row.None? && header.value != NOT_YET_CREATED { return PreconditionFailed; }
      b := Proceed(Pending(header.value, patch, row.Some?));
    }

    method CreateOrUpdate(p: Pending) returns (outcome: Written)
      modifies this
      ensures Result(row, outcome) == Write(old(row), p)
    {
      if !p.found {
        if row.Some? { return UniqueViolation; }
        row := Some(Row(Lay(DEFAULTS, p.patch), 1));
        return Created;
      }
      if row.None? || row.value.version != VersionNumber(p.tag) { return LockFailure; }
      row := Some(Row(Lay(row.value.settings, p.patch), row.value.version + 1));
      outcome := Updated;
    }
  }
}
