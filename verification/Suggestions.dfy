/**
 * Merge suggestions: the pairwise scan over display names, the sweep that turns its candidates into suggestions, and
 * their approval, rejection and expiry.
 */
module Suggestions {
  import opened Basics
  import opened Text

  // ---------- comparing names ----------

  /** Runs of white space become one space each. */
  function Collapse(s: string): string {
    if s == "" then ""
    else if IsSpace(s[0]) then (if |s| > 1 && IsSpace(s[1]) then "" else " ") + Collapse(s[1..])
    else [s[0]] + Collapse(s[1..])
  }

  function NormalizeDisplayName(name: string): string { Collapse(Lower(Trim(name))) }

  predicate IsMeaningfulSubstring(shorter: string, longer: string) {
    |shorter| >= 3 && Includes(longer, shorter)
  }

  datatype Verdict = Identical | Similar | Different

  function Compare(a: string, b: string): Verdict {
    var normA, normB := NormalizeDisplayName(a), NormalizeDisplayName(b);
    if normA == normB then Identical
    else
      var (shorter, longer) := if |normA| <= |normB| then (normA, normB) else (normB, normA);
      if IsMeaningfulSubstring(shorter, longer) then Similar else Different
  }

  /** Equally long strings include each other only if they are equal. */
  lemma IncludesEqualLength(s: string, word: string)
    requires |s| == |word|
    ensures Includes(s, word) <==> s == word
  {
    if s == word { assert OccursAt(s, word, 0); }
  }

  lemma LongerIsNotIncluded(s: string, word: string)
    requires |s| < |word|
    ensures !Includes(s, word)
  {
  }

  /** It does not matter which contact comes first, and a contact is like every other spelling of its own name. */
  lemma CompareIsSymmetric(a: string, b: string)
    ensures Compare(a, b) == Compare(b, a)
    ensures Compare(a, b) == Identical <==> NormalizeDisplayName(a) == NormalizeDisplayName(b)
    ensures var normA, normB := NormalizeDisplayName(a), NormalizeDisplayName(b);
            Compare(a, b) == Similar <==>
              && normA != normB
              && ((|normA| >= 3 && exists before, after :: Around(normB, before, normA, after))
                  || (|normB| >= 3 && exists before, after :: Around(normA, before, normB, after)))
  {
    hide NormalizeDisplayName, Includes;
    var normA, normB := NormalizeDisplayName(a), NormalizeDisplayName(b);
    IncludesIff(normA, normB);
    IncludesIff(normB, normA);
    if |normA| < |normB| { LongerIsNotIncluded(normA, normB); }
    if |normB| < |normA| { LongerIsNotIncluded(normB, normA); }
    if |normA| == |normB| {
      IncludesEqualLength(normA, normB);
      IncludesEqualLength(normB, normA);
    }
  }

  lemma {:induction false} CollapseTwice(s: string)
    ensures Collapse(Collapse(s)) == Collapse(s)
    ensures Collapse(s) == "" <==> s == ""
    ensures s != "" ==> (IsSpace(Collapse(s)[0]) <==> IsSpace(s[0]))
  {
    hide IsSpace;
    assert IsSpace(' ') by { SpaceIsSpace(); }
    if s == "" {
    } else {
      var rest := Collapse(s[1..]);
      CollapseTwice(s[1..]);
      if IsSpace(s[0]) && |s| > 1 && IsSpace(s[1]) {
        assert s[1..][0] == s[1] && Collapse(s) == rest;
      } else {
        var c := if IsSpace(s[0]) then ' ' else s[0];
        assert Collapse(s) == [c] + rest && ([c] + rest)[1..] == rest;
        assert IsSpace(c) ==> rest == "" || !IsSpace(rest[0]);
      }
    }
  }

  predicate CleanEnds(s: string) { s != "" ==> !IsSpace(s[0]) && !IsSpace(s[|s| - 1]) }

  predicate IsLower(s: string) { forall i :: 0 <= i < |s| ==> LowerChar(s[i]) == s[i] }

  lemma {:induction false} CollapseKeepsEnd(s: string)
    requires s != ""
    ensures Collapse(s) != "" && (IsSpace(Collapse(s)[|Collapse(s)| - 1]) <==> IsSpace(s[|s| - 1]))
  {
    SpaceIsSpace();
    hide IsSpace;
    if |s| > 1 {
      CollapseKeepsEnd(s[1..]);
    } else {
      assert s[1..] == "" && Collapse("") == "";
    }
  }

  lemma {:induction false} CollapseKeepsLower(s: string)
    requires IsLower(s)
    ensures IsLower(Collapse(s))
  {
    hide IsSpace;
    if s == "" {
    } else {
      CollapseKeepsLower(s[1..]);
    }
  }

  lemma LowerKeepsEnds(s: string)
    requires CleanEnds(s)
    ensures CleanEnds(Lower(s)) && IsLower(Lower(s))
  {
  }

  lemma CleanIsTrimmed(s: string)
    ensures CleanEnds(s) ==> Trim(s) == s
    ensures CleanEnds(Trim(s))
  {
    hide IsSpace;
    if s != "" && CleanEnds(s) {
      TrimRemovesExactlyTheSpace("", s, "");
      assert "" + s + "" == s;
    }
  }

  /** A normalized name is its own normal form: case, surrounding and repeated space are all that is forgotten. */
  lemma NormalizeTwice(name: string)
    ensures NormalizeDisplayName(NormalizeDisplayName(name)) == NormalizeDisplayName(name)
  {
    var t := Lower(Trim(name));
    CleanIsTrimmed(name);
    LowerKeepsEnds(Trim(name));
    CollapseTwice(t);
    CollapseKeepsLower(t);
    if t != "" { CollapseKeepsEnd(t); }
    CleanIsTrimmed(Collapse(t));
    hide Collapse, IsSpace, Trim;
    assert Lower(Collapse(t)) == Collapse(t);
  }

  lemma {:induction false} CollapseWord(w: string, rest: string)
    requires forall i :: 0 <= i < |w| ==> !IsSpace(w[i])
    ensures Collapse(w + rest) == w + Collapse(rest)
  {
    hide IsSpace;
    if w == "" {
      assert w + rest == rest;
    } else {
      CollapseStep(w[0], w[1..] + rest);
      assert w + rest == [w[0]] + (w[1..] + rest);
      hide Collapse;
      CollapseWord(w[1..], rest);
      assert [w[0]] + (w[1..] + Collapse(rest)) == w + Collapse(rest);
    }
  }

  lemma CollapseStep(c: char, s: string)
    requires !IsSpace(c)
    ensures Collapse([c] + s) == [c] + Collapse(s)
  {
    hide IsSpace;
    assert ([c] + s)[1..] == s;
  }

  lemma {:induction false} CollapseSpaces(s: string)
    requires s != "" && IsSpace(s[0])
    ensures Collapse(s) == " " + Collapse(TrimStart(s))
  {
    hide IsSpace;
    if |s| > 1 && IsSpace(s[1]) {
      CollapseSpaces(s[1..]);
    } else if |s| == 1 {
      assert s[1..] == "" && TrimStart("") == "";
    } else {
      assert TrimStart(s) == TrimStart(s[1..]) == s[1..];
    }
  }

  lemma {:induction false} TrimStartKeepsEnd(s: string)
    requires s != "" && !IsSpace(s[|s| - 1])
    ensures var t := TrimStart(s); t != "" && |t| <= |s| && !IsSpace(t[0]) && !IsSpace(t[|t| - 1])
    ensures IsSpace(s[0]) ==> |TrimStart(s)| < |s|
  {
    hide IsSpace;
    if !IsSpace(s[0]) {
    } else {
      TrimStartKeepsEnd(s[1..]);
    }
  }

  /** A text with clean ends collapses to its words with one space between them. */
  lemma {:induction false} CollapseIsJoin(s: string)
    requires CleanEnds(s)
    ensures Collapse(s) == Join(Words(s))
    decreases |s|
  {
    if s == "" {
    } else {
      var w := FirstWord(s);
      var rest := s[|w|..];
      assert Words(s) == [w] + Words(rest);
      assert rest == "" ==> Words(rest) == [] && Collapse(rest) == "" && Join([w]) == w;
      hide IsSpace, Words, Collapse, FirstWord, TrimStart, Join;
      FirstWordStops(s);
      CollapseWord(w, rest);
      if rest != "" {
        LastOfRest(s, |w|);
        CollapseSpaces(rest);
        TrimStartKeepsEnd(rest);
        WordsOfTrimStart(rest);
        CollapseIsJoin(TrimStart(rest));
        NonEmptyHasWords(TrimStart(rest));
        JoinOneMore(w, Words(rest));
      }
    }
  }

  lemma LastOfRest(s: string, n: nat)
    requires n < |s|
    ensures s[n..][|s| - n - 1] == s[|s| - 1]
  {
  }

  lemma JoinOneMore(w: string, words: seq<string>)
    requires words != []
    ensures Join([w] + words) == w + " " + Join(words)
  {
    assert ([w] + words)[1..] == words;
  }

  lemma NonEmptyHasWords(s: string)
    requires s != "" && !IsSpace(s[0])
    ensures Words(s) != []
  {
  }

  /**
   * What a normalized name is: the words of the name in lower case, one space between them. So two names are the same
   * to the matching exactly if they have the same words, whatever their case and spacing.
   */
  lemma NormalizedIsItsWords(a: string, b: string)
    ensures NormalizeDisplayName(a) == Join(Words(Lower(a)))
    ensures Compare(a, b) == Identical <==> Words(Lower(a)) == Words(Lower(b))
  {
    NormalizedWords(a);
    NormalizedWords(b);
    WordsAreWords(Lower(a));
    WordsAreWords(Lower(b));
    WordsOfJoin(Words(Lower(a)));
    WordsOfJoin(Words(Lower(b)));
    hide NormalizeDisplayName, Words, Join, IsWord, Includes;
  }

  lemma NormalizedWords(name: string)
    ensures NormalizeDisplayName(name) == Join(Words(Lower(name)))
  {
    LowerOfTrim(name);
    CleanIsTrimmed(Lower(name));
    CollapseIsJoin(Trim(Lower(name)));
    WordsOfTrim(Lower(name));
    hide Collapse, Trim, Lower, Words, Join;
  }

  // ---------- candidates ----------

  datatype Contact = Contact(id: int, name: string)

  /** The pair as scanned, with the confidence in tenths. */
  datatype Candidate = Candidate(a: int, b: int, confidence: int)

  function Pair(x: Contact, y: Contact): seq<Candidate> {
    match Compare(x.name, y.name)
    case Identical => [Candidate(x.id, y.id, 9)]
    case Similar => [Candidate(x.id, y.id, 6)]
    case Different => []
  }

  /** What the scan still finds from the pair (i, j) on. */
  function CandidatesFrom(cs: seq<Contact>, i: nat, j: nat): seq<Candidate>
    decreases |cs| - i, |cs| - j
  {
    if i >= |cs| then []
    else if j >= |cs| then CandidatesFrom(cs, i + 1, i + 2)
    else Pair(cs[i], cs[j]) + CandidatesFrom(cs, i, j + 1)
  }

  lemma ScanStep(cs: seq<Contact>, i: nat, j: nat)
    ensures CandidatesFrom(cs, i, j) ==
              if i >= |cs| then []
              else if j >= |cs| then CandidatesFrom(cs, i + 1, i + 2)
              else Pair(cs[i], cs[j]) + CandidatesFrom(cs, i, j + 1)
  {
  }

  function Candidates(cs: seq<Contact>): seq<Candidate> { CandidatesFrom(cs, 0, 1) }

  predicate InScan(i: nat, j: nat, k: nat, l: nat) {
    k < l && (i < k || (i == k && j <= l))
  }

  lemma {:induction false} CandidatesFromAre(cs: seq<Contact>, i: nat, j: nat, c: Candidate)
    requires i < j
    ensures c in CandidatesFrom(cs, i, j) <==>
              exists k, l :: 0 <= k < |cs| && 0 <= l < |cs| && InScan(i, j, k, l) && c in Pair(cs[k], cs[l])
    decreases |cs| - i, |cs| - j
  {
    ScanStep(cs, i, j);
    hide Pair, CandidatesFrom;
    if i < |cs| {
      if j >= |cs| {
        CandidatesFromAre(cs, i + 1, i + 2, c);
      } else {
        CandidatesFromAre(cs, i, j + 1, c);
        if c in Pair(cs[i], cs[j]) { assert InScan(i, j, i, j); }
        forall k, l | 0 <= k < |cs| && 0 <= l < |cs| && InScan(i, j, k, l) && c in Pair(cs[k], cs[l])
          ensures (k == i && l == j) || InScan(i, j + 1, k, l)
        {
        }
        forall k, l | 0 <= k < |cs| && 0 <= l < |cs| && InScan(i, j + 1, k, l) ensures InScan(i, j, k, l) { }
      }
    }
  }

  /** Two contacts are suggested exactly if their names match, with the higher confidence if they are identical. */
  lemma CandidatesAreTheMatchingPairs(cs: seq<Contact>, c: Candidate)
    ensures c in Candidates(cs) <==>
              exists k, l :: 0 <= k < l < |cs| && c.a == cs[k].id && c.b == cs[l].id
                             && Compare(cs[k].name, cs[l].name) != Different
                             && c.confidence == if Compare(cs[k].name, cs[l].name) == Identical then 9 else 6
  {
    hide Compare;
    CandidatesFromAre(cs, 0, 1, c);
    if c in Candidates(cs) {
      var k, l :| 0 <= k < |cs| && 0 <= l < |cs| && InScan(0, 1, k, l) && c in Pair(cs[k], cs[l]);
    }
    forall k, l | 0 <= k < l < |cs| ensures InScan(0, 1, k, l) { }
  }

  method ComparePair(a: Contact, b: Contact) returns (found: seq<Candidate>)
    ensures found == Pair(a, b)
  {
    var normA, normB := NormalizeDisplayName(a.name), NormalizeDisplayName(b.name);
    hide NormalizeDisplayName, Includes;
    if normA == normB { return [Candidate(a.id, b.id, 9)]; }
    var shorter, longer := normA, normB;
    if |normA| > |normB| { shorter, longer := normB, normA; }
    found := if IsMeaningfulSubstring(shorter, longer) then [Candidate(a.id, b.id, 6)] else [];
  }

  /** `findMergeCandidates` */
  method FindMergeCandidates(cs: seq<Contact>) returns (candidates: seq<Candidate>)
    ensures candidates == Candidates(cs)
  {
    hide Pair, CandidatesFrom;
    candidates := [];
    var i := 0;
    while i < |cs|
      invariant 0 <= i <= |cs|
      invariant candidates + CandidatesFrom(cs, i, i + 1) == Candidates(cs)
    {
      var j := i + 1;
      while j < |cs|
        invariant i < j <= |cs|
        invariant candidates + CandidatesFrom(cs, i, j) == Candidates(cs)
      {
        var found := ComparePair(cs[i], cs[j]);
        ghost var rest := CandidatesFrom(cs, i, j + 1);
        ScanStep(cs, i, j);
        assert candidates + (found + rest) == (candidates + found) + rest;
        candidates := candidates + found;
        j := j + 1;
      }
      ScanStep(cs, i, j);
      i := i + 1;
    }
    ScanStep(cs, i, i + 1);
  }

  // ---------- suggestions ----------

  datatype Status = Pending | Approved | Rejected | Expired

  datatype Suggestion = Suggestion(a: int, b: int, confidence: int, status: Status, expiresAt: int)

  const SUGGESTION_TTL_MS: int := 7 * 24 * 60 * 60 * 1000

  predicate SamePair(s: Suggestion, a: int, b: int) {
    (s.a == a && s.b == b) || (s.a == b && s.b == a)
  }

  /** Pending or rejected: the pair is not to be suggested again. */
  predicate Open(s: Suggestion, a: int, b: int) {
    (s.status.Pending? || s.status.Rejected?) && SamePair(s, a, b)
  }

  predicate HasOpen(ss: seq<Suggestion>, a: int, b: int) {
    exists s :: s in ss && Open(s, a, b)
  }

  function Suggest(ss: seq<Suggestion>, c: Candidate, now: int): seq<Suggestion> {
    if HasOpen(ss, c.a, c.b) then ss
    else ss + [Suggestion(Min(c.a, c.b), Max(c.a, c.b), c.confidence, Pending, now + SUGGESTION_TTL_MS)]
  }

  function SuggestAll(ss: seq<Suggestion>, cs: seq<Candidate>, now: int): seq<Suggestion>
    decreases cs
  {
    if cs == [] then ss else SuggestAll(Suggest(ss, cs[0], now), cs[1..], now)
  }

  function Expiry(s: Suggestion, now: int): Suggestion {
    if s.status.Pending? && s.expiresAt < now then s.(status := Expired) else s
  }

  function ExpireAll(ss: seq<Suggestion>, now: int): (r: seq<Suggestion>)
    ensures |r| == |ss| && forall i :: 0 <= i < |ss| ==> r[i] == Expiry(ss[i], now)
  {
    seq(|ss|, i requires 0 <= i < |ss| => Expiry(ss[i], now))
  }

  /** `runOnce` for one workspace. */
  function Sweep(ss: seq<Suggestion>, cs: seq<Candidate>, now: int): seq<Suggestion> {
    ExpireAll(SuggestAll(ss, cs, now), now)
  }

  datatype Outcome = NotFound | NotPending | Decided

  datatype Result = Result(suggestions: seq<Suggestion>, outcome: Outcome)

  /** `approveMergeSuggestion` and `rejectMergeSuggestion`, as far as the suggestion goes. */
  function Decide(ss: seq<Suggestion>, i: nat, status: Status): Result {
    if i >= |ss| then Result(ss, NotFound)
    else if !ss[i].status.Pending? then Result(ss, NotPending)
    else Result(ss[i := ss[i].(status := status)], Decided)
  }

  datatype Event = Swept(contacts: seq<Contact>, now: int) | Approve(i: nat) | Reject(i: nat)

  function Step(ss: seq<Suggestion>, e: Event): seq<Suggestion> {
    match e
    case Swept(contacts, now) => Sweep(ss, Candidates(contacts), now)
    case Approve(i) => Decide(ss, i, Approved).suggestions
    case Reject(i) => Decide(ss, i, Rejected).suggestions
  }

  function Run(ss: seq<Suggestion>, es: seq<Event>): seq<Suggestion>
    decreases es
  {
    if es == [] then ss else Run(Step(ss, es[0]), es[1..])
  }

  /** A pending suggestion takes the decision and nothing else changes; any other is refused. */
  lemma DecisionMeaning(ss: seq<Suggestion>, i: nat)
    ensures i >= |ss| ==> Decide(ss, i, Approved) == Decide(ss, i, Rejected) == Result(ss, NotFound)
    ensures i < |ss| && ss[i].status != Pending ==>
              Decide(ss, i, Approved) == Decide(ss, i, Rejected) == Result(ss, NotPending)
    ensures i < |ss| && ss[i].status == Pending ==>
              && Decide(ss, i, Approved).outcome == Decide(ss, i, Rejected).outcome == Decided
              && Step(ss, Approve(i)) == ss[..i] + [ss[i].(status := Approved)] + ss[i + 1..]
              && Step(ss, Reject(i)) == ss[..i] + [ss[i].(status := Rejected)] + ss[i + 1..]
  {
  }

  /** At most one suggestion of each unordered pair is pending or rejected. */
  ghost predicate OneOpenPerPair(ss: seq<Suggestion>) {
    forall i, j :: 0 <= i < j < |ss| && Open(ss[i], ss[i].a, ss[i].b) ==> !Open(ss[j], ss[i].a, ss[i].b)
  }

  /** Rows are kept; a decided or expired suggestion never changes; pending ones change their status only. */
  ghost predicate Extends(ss: seq<Suggestion>, tt: seq<Suggestion>) {
    && |ss| <= |tt|
    && forall i :: 0 <= i < |ss| ==>
         tt[i] == ss[i] || (ss[i].status.Pending? && tt[i] == ss[i].(status := tt[i].status))
  }

  /** No row after the n-th is open for a pair that an earlier rejected row holds. */
  ghost predicate RejectedStay(ss: seq<Suggestion>, a: int, b: int, n: nat) {
    && (exists i :: 0 <= i < |ss| && i < n && ss[i].status.Rejected? && SamePair(ss[i], a, b))
    && forall j :: n <= j < |ss| ==> !SamePair(ss[j], a, b)
  }

  lemma SuggestKeeps(ss: seq<Suggestion>, c: Candidate, now: int)
    requires OneOpenPerPair(ss)
    ensures OneOpenPerPair(Suggest(ss, c, now)) && Extends(ss, Suggest(ss, c, now))
    ensures HasOpen(Suggest(ss, c, now), c.a, c.b)
  {
    var tt := Suggest(ss, c, now);
    if !HasOpen(ss, c.a, c.b) {
      assert tt[|ss|] in tt && Open(tt[|ss|], c.a, c.b);
      forall i, j | 0 <= i < j < |tt| && Open(tt[i], tt[i].a, tt[i].b) ensures !Open(tt[j], tt[i].a, tt[i].b) {
        assert tt[i] in ss;
        assert !Open(tt[i], c.a, c.b);
      }
    }
  }

  lemma ExtendsTransitive(ss: seq<Suggestion>, tt: seq<Suggestion>, uu: seq<Suggestion>)
    requires Extends(ss, tt) && Extends(tt, uu)
    ensures Extends(ss, uu)
  {
  }

  lemma HasOpenLater(ss: seq<Suggestion>, c: Candidate, now: int, a: int, b: int)
    requires HasOpen(ss, a, b)
    ensures HasOpen(Suggest(ss, c, now), a, b)
  {
    var s :| s in ss && Open(s, a, b);
    assert s in Suggest(ss, c, now);
  }

  /** After the creation phase every candidate pair is open, and what is new was a candidate that was not open. */
  lemma {:induction false} SuggestAllKeeps(ss: seq<Suggestion>, cs: seq<Candidate>, now: int)
    requires OneOpenPerPair(ss)
    ensures var tt := SuggestAll(ss, cs, now);
            && OneOpenPerPair(tt) && ss <= tt
            && (forall a, b :: HasOpen(ss, a, b) ==> HasOpen(tt, a, b))
            && (forall c :: c in cs ==> HasOpen(tt, c.a, c.b))
            && (forall j :: |ss| <= j < |tt| ==>
                  && tt[j].status == Pending && tt[j].expiresAt == now + SUGGESTION_TTL_MS && tt[j].a <= tt[j].b
                  && !HasOpen(ss, tt[j].a, tt[j].b)
                  && exists c :: c in cs && SamePair(tt[j], c.a, c.b) && c.confidence == tt[j].confidence)
    decreases cs
  {
    if cs == [] {
    } else {
      var mid := Suggest(ss, cs[0], now);
      SuggestKeeps(ss, cs[0], now);
      SuggestAllKeeps(mid, cs[1..], now);
      var tt := SuggestAll(mid, cs[1..], now);
      hide OneOpenPerPair, Extends;
      forall a, b | HasOpen(ss, a, b) ensures HasOpen(mid, a, b) { HasOpenLater(ss, cs[0], now, a, b); }
      forall c | c in cs ensures HasOpen(tt, c.a, c.b) { assert c == cs[0] || c in cs[1..]; }
      forall j | |ss| <= j < |tt|
        ensures !HasOpen(ss, tt[j].a, tt[j].b)
        ensures exists c :: c in cs && SamePair(tt[j], c.a, c.b) && c.confidence == tt[j].confidence
      {
        if j < |mid| {
          NewSuggestion(ss, cs[0], now);
          assert tt[j] == mid[j] && cs[0] in cs;
        } else {
          var c :| c in cs[1..] && SamePair(tt[j], c.a, c.b) && c.confidence == tt[j].confidence;
          assert c in cs;
        }
      }
    }
  }

  lemma NewSuggestion(ss: seq<Suggestion>, c: Candidate, now: int)
    ensures var tt := Suggest(ss, c, now);
            forall j :: |ss| <= j < |tt| ==>
              && tt[j].a <= tt[j].b && SamePair(tt[j], c.a, c.b)
              && tt[j].confidence == c.confidence && !HasOpen(ss, tt[j].a, tt[j].b)
              && tt[j].status == Pending && tt[j].expiresAt == now + SUGGESTION_TTL_MS
  {
    if !HasOpen(ss, c.a, c.b) {
      assert forall s :: s in ss ==> (Open(s, c.a, c.b) <==> Open(s, Min(c.a, c.b), Max(c.a, c.b)));
    }
  }

  lemma StepKeeps(ss: seq<Suggestion>, e: Event)
    requires OneOpenPerPair(ss)
    ensures OneOpenPerPair(Step(ss, e)) && Extends(ss, Step(ss, e))
  {
    if e.Swept? {
      SuggestAllKeeps(ss, Candidates(e.contacts), e.now);
      hide Candidates, SuggestAll, HasOpen;
    }
  }

  /**
   * At every moment of every run of sweeps, approvals, rejections and expiries each unordered pair has at most one
   * suggestion that is pending or rejected, and a decision once taken stays.
   */
  lemma {:induction false} RunKeeps(ss: seq<Suggestion>, es: seq<Event>)
    requires OneOpenPerPair(ss)
    ensures OneOpenPerPair(Run(ss, es)) && Extends(ss, Run(ss, es))
    decreases es
  {
    if es == [] {
    } else {
      StepKeeps(ss, es[0]);
      RunKeeps(Step(ss, es[0]), es[1..]);
      ExtendsTransitive(ss, Step(ss, es[0]), Run(ss, es));
    }
  }

  lemma StepAfterRejection(ss: seq<Suggestion>, e: Event, a: int, b: int, n: nat)
    requires OneOpenPerPair(ss) && RejectedStay(ss, a, b, n) && n <= |ss|
    ensures RejectedStay(Step(ss, e), a, b, n) && n <= |Step(ss, e)|
  {
    var i :| 0 <= i < |ss| && i < n && ss[i].status.Rejected? && SamePair(ss[i], a, b);
    StepKeeps(ss, e);
    var tt := Step(ss, e);
    assert tt[i] == ss[i];
    forall j | n <= j < |tt| ensures !SamePair(tt[j], a, b) {
      if j >= |ss| {
        SuggestAllKeeps(ss, Candidates(e.contacts), e.now);
        assert ss[i] in ss;
        assert SamePair(tt[j], a, b) ==> Open(ss[i], tt[j].a, tt[j].b);
      }
    }
  }

  lemma {:induction false} RunAfterRejection(ss: seq<Suggestion>, es: seq<Event>, a: int, b: int, n: nat)
    requires OneOpenPerPair(ss) && RejectedStay(ss, a, b, n) && n <= |ss|
    ensures RejectedStay(Run(ss, es), a, b, n)
    decreases es
  {
    if es == [] {
    } else {
      StepKeeps(ss, es[0]);
      StepAfterRejection(ss, es[0], a, b, n);
      hide Step, RejectedStay, OneOpenPerPair;
      RunAfterRejection(Step(ss, es[0]), es[1..], a, b, n);
    }
  }

  /** A rejected pair is never suggested again, whatever happens and whatever the contacts are called later. */
  lemma RejectedIsNeverSuggestedAgain(es: seq<Event>, i: nat, fs: seq<Event>, j: nat)
    requires Decide(Run([], es), i, Rejected).outcome == Decided
    ensures var ss := Run([], es);
            var tt := Run(Step(ss, Reject(i)), fs);
            && |ss| <= |tt| && tt[i] == ss[i].(status := Rejected)
            && (|ss| <= j < |tt| ==> !SamePair(tt[j], ss[i].a, ss[i].b))
  {
    var ss := Run([], es);
    RunKeeps([], es);
    var rr := Step(ss, Reject(i));
    StepKeeps(ss, Reject(i));
    assert RejectedStay(rr, ss[i].a, ss[i].b, |ss|) by { assert SamePair(rr[i], ss[i].a, ss[i].b); }
    RunAfterRejection(rr, fs, ss[i].a, ss[i].b, |ss|);
    RunKeeps(rr, fs);
  }

  /** Old rows expire exactly if pending and overdue, new ones stay pending for the full term. */
  lemma SweepExpiresExactlyTheOverdue(ss: seq<Suggestion>, contacts: seq<Contact>, now: int, i: nat)
    requires OneOpenPerPair(ss) && i < |Step(ss, Swept(contacts, now))|
    ensures var s := Step(ss, Swept(contacts, now))[i];
            if i >= |ss| then s.status == Pending && s.expiresAt == now + 604800000 && s.a <= s.b
            else if ss[i].status.Pending? && ss[i].expiresAt < now then s == ss[i].(status := Expired)
            else s == ss[i]
  {
    hide Candidates;
    SuggestAllKeeps(ss, Candidates(contacts), now);
    hide OneOpenPerPair, HasOpen, SuggestAll;
  }

  /** A sweep creates nothing exactly if every pair of contacts with matching names is already open. */
  lemma SweepIsIdleIff(ss: seq<Suggestion>, contacts: seq<Contact>, now: int)
    requires OneOpenPerPair(ss)
    ensures |Step(ss, Swept(contacts, now))| == |ss|
       <==> forall c :: c in Candidates(contacts) ==> HasOpen(ss, c.a, c.b)
  {
    hide Candidates;
    var cs := Candidates(contacts);
    SuggestAllKeeps(ss, cs, now);
    var tt := SuggestAll(ss, cs, now);
    if |tt| == |ss| {
      assert tt == ss;
    } else {
      var c :| c in cs && SamePair(tt[|ss|], c.a, c.b) && c.confidence == tt[|ss|].confidence;
      assert forall s :: s in ss ==> (Open(s, c.a, c.b) <==> Open(s, tt[|ss|].a, tt[|ss|].b));
    }
  }

  /** A sweep repeated with the same contacts, before anything expires, changes nothing. */
  lemma RepeatedSweepIsIdle(ss: seq<Suggestion>, contacts: seq<Contact>, now: int, later: int)
    requires OneOpenPerPair(ss)
    requires now <= later <= now + SUGGESTION_TTL_MS
    requires forall s :: s in ss && s.status.Pending? ==> later <= s.expiresAt
    ensures Step(Step(ss, Swept(contacts, now)), Swept(contacts, later)) == Step(ss, Swept(contacts, now))
  {
    hide Candidates;
    var cs := Candidates(contacts);
    var tt := SuggestAll(ss, cs, now);
    SuggestAllKeeps(ss, cs, now);
    forall i | 0 <= i < |tt| ensures Expiry(tt[i], now) == tt[i] == Expiry(tt[i], later) {
      if i < |ss| { assert tt[i] == ss[i] && ss[i] in ss; }
    }
    assert ExpireAll(tt, now) == tt;
    OpenAddsNothing(tt, cs, later);
    assert ExpireAll(tt, later) == tt;
  }

  lemma {:induction false} OpenAddsNothing(ss: seq<Suggestion>, cs: seq<Candidate>, now: int)
    requires forall c :: c in cs ==> HasOpen(ss, c.a, c.b)
    ensures SuggestAll(ss, cs, now) == ss
    decreases cs
  {
    if cs == [] {
    } else {
      assert cs[0] in cs;
      OpenAddsNothing(ss, cs[1..], now);
    }
  }

  // ---------- the service ----------

  class IdentityMatchingService {
    var suggestions: seq<Suggestion>

    constructor ()
      ensures suggestions == []
    {
      suggestions := [];
    }

    method RunOnce(contacts: seq<Contact>, now: int) returns (created: nat)
      modifies this
      ensures suggestions == Step(old(suggestions), Swept(contacts, now))
      ensures created == |suggestions| - |old(suggestions)|
    {
      var candidates := FindMergeCandidates(contacts);
      hide Candidates, HasOpen, Open;
      created := 0;
      var k := 0;
      while k < |candidates|
        invariant 0 <= k <= |candidates|
        invariant SuggestAll(suggestions, candidates[k..], now) == SuggestAll(old(suggestions), candidates, now)
        invariant created == |suggestions| - |old(suggestions)|
      {
        var c := candidates[k];
        assert candidates[k..][0] == c && candidates[k..][1..] == candidates[k + 1..];
        k := k + 1;
        if HasOpen(suggestions, c.a, c.b) { continue; }
        var expiresAt := now + SUGGESTION_TTL_MS;
        suggestions := suggestions + [Suggestion(Min(c.a, c.b), Max(c.a, c.b), c.confidence, Pending, expiresAt)];
        created := created + 1;
      }
      suggestions := ExpireAll(suggestions, now);
    }

    method Review(i: nat, approve: bool) returns (outcome: Outcome)
      modifies this
      ensures Result(suggestions, outcome) == Decide(old(suggestions), i, if approve then Approved else Rejected)
    {
      if i >= |suggestions| { return NotFound; }
      if !suggestions[i].status.Pending? { return NotPending; }
      suggestions := suggestions[i := suggestions[i].(status := if approve then Approved else Rejected)];
      outcome := Decided;
    }
  }
}
