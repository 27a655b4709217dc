/** Version tags: what a response's ETag looks like and what a request's If-Match or If-None-Match is read as. */
module ETag {
  import opened Basics
  import opened Text

  // ---------- tags ----------

  function EtagFor(version: string): string { "\"" + version + "\"" }

  function StripWeak(s: string): string { if |s| >= 2 && s[..2] == "W/" then s[2..] else s }

  function StripQuotes(s: string): string {
    var t := if s != "" && s[0] == '"' then s[1..] else s;
    if t != "" && t[|t| - 1] == '"' then t[..|t| - 1] else t
  }

  /** `parseETagHeader`: a missing or empty header is no header. */
  function ParseETagHeader(raw: Option<string>): Option<string> {
    if raw.None? || raw.value == "" then None
    else Some(StripQuotes(StripWeak(Trim(raw.value))))
  }

  /** Any tag is read back as the version it was made from, whether marked weak or not and however it is spaced. */
  lemma TagRoundTrip(version: string, weak: bool, pre: string, post: string)
    requires AllSpace(pre) && AllSpace(post)
    ensures var tag := (if weak then "W/" else "") + EtagFor(version);
            ParseETagHeader(Some(pre + tag + post)) == Some(version)
  {
    var quoted := EtagFor(version);
    var tag := (if weak then "W/" else "") + quoted;
    assert tag[|tag| - 1] == '"' && (tag[0] == 'W' || tag[0] == '"');
    TrimRemovesExactlyTheSpace(pre, tag, post);
    hide Trim, IsSpace;
    StripTag(version, weak);
  }

  lemma PlainTag(version: string)
    ensures ParseETagHeader(Some(EtagFor(version))) == Some(version)
  {
    TagRoundTrip(version, false, "", "");
    assert "" + ("" + EtagFor(version)) + "" == EtagFor(version);
    hide ParseETagHeader;
  }

  /** A header without quotes is taken as it stands, but for the spaces around it and a weak mark. */
  lemma BareHeader(s: string)
    requires s != "" && !IsSpace(s[0]) && !IsSpace(s[|s| - 1]) && s[0] != '"' && s[|s| - 1] != '"'
    ensures !(|s| >= 2 && s[0] == 'W' && s[1] == '/') ==> ParseETagHeader(Some(s)) == Some(s)
    ensures ParseETagHeader(Some("W/" + s)) == Some(s)
    ensures ParseETagHeader(Some("W/")) == Some("")
  {
    BareParts(s);
    BareParts("W/" + s);
    BareParts("W/");
    assert ("W/" + s)[..2] == "W/" && ("W/" + s)[2..] == s;
    assert "W/"[..2] == "W/" && "W/"[2..] == "";
    assert |s| >= 2 ==> (s[..2] == "W/" <==> s[0] == 'W' && s[1] == '/');
    hide Trim, IsSpace;
  }

  lemma BareParts(s: string)
    requires s != "" && !IsSpace(s[0]) && !IsSpace(s[|s| - 1])
    ensures Trim(s) == s
  {
    TrimRemovesExactlyTheSpace("", s, "");
    assert "" + s + "" == s;
  }

  lemma StripTag(version: string, weak: bool)
    ensures StripQuotes(StripWeak((if weak then "W/" else "") + EtagFor(version))) == version
  {
    var quoted := EtagFor(version);
    var tag := (if weak then "W/" else "") + quoted;
    if weak {
      assert tag[..2] == "W/" && tag[2..] == quoted;
    } else {
      assert tag[0] == '"';
      assert tag == quoted && tag[..2][0] != 'W';
    }
    assert quoted[1..] == version + "\"";
    assert quoted[1..][..|version|] == version;
  }

  // ---------- version numbers ----------

  function Digit(d: nat): char
    requires d < 10
  {
    "0123456789"[d]
  }

  function Decimal(n: nat): (s: string)
    ensures s != ""
  {
    (if n < 10 then "" else Decimal(n / 10)) + [Digit(n % 10)]
  }

  predicate IsDigits(s: string) {
    forall i :: 0 <= i < |s| ==> '0' <= s[i] <= '9'
  }

  function Value(s: string): nat
    requires IsDigits(s)
  {
    if s == "" then 0 else 10 * Value(s[..|s| - 1]) + (s[|s| - 1] - '0') as nat
  }

  /**
   * `Number.isInteger(Number(s)) ? Number(s) : -1` on digit strings and the empty string, which counts as 0.
   * Signs, fractions, exponents and other radixes are read as -1 here.
   */
  function VersionNumber(s: string): int {
    if IsDigits(s) then Value(s) else -1
  }

  lemma AppendDigit(s: string, d: nat)
    requires IsDigits(s) && d < 10
    ensures IsDigits(s + [Digit(d)]) && Value(s + [Digit(d)]) == 10 * Value(s) + d
  {
    var t := s + [Digit(d)];
    assert t[..|t| - 1] == s && t[|t| - 1] == Digit(d);
  }

  lemma {:induction false} DecimalValue(n: nat)
    ensures IsDigits(Decimal(n)) && Value(Decimal(n)) == n
  {
    var front := if n < 10 then "" else Decimal(n / 10);
    if n >= 10 { DecimalValue(n / 10); }
    AppendDigit(front, n % 10);
  }

  /** A client that sends back the tag it was given declares exactly that version, and no other tag declares it. */
  lemma TagDeclaresVersion(v: nat, w: nat)
    ensures ParseETagHeader(Some(EtagFor(Decimal(v)))) == Some(Decimal(v))
    ensures VersionNumber(Decimal(v)) == v
    ensures Decimal(v) == Decimal(w) <==> v == w
    ensures EtagFor(Decimal(v)) == EtagFor(Decimal(w)) <==> v == w
  {
    PlainTag(Decimal(v));
    PlainTag(Decimal(w));
    DecimalValue(v);
    DecimalValue(w);
    hide ParseETagHeader, EtagFor, Value, IsDigits;
  }

  /** GET answers 304 to a tag exactly if the tag is the current version's. */
  function NotModified(ifNoneMatch: Option<string>, version: nat): bool {
    ParseETagHeader(ifNoneMatch) == Some(Decimal(version))
  }

  lemma NotModifiedIffCurrent(v: nat, version: nat)
    ensures NotModified(Some(EtagFor(Decimal(v))), version) <==> v == version
    ensures !NotModified(None, version) && !NotModified(Some(""), version)
  {
    TagDeclaresVersion(v, version);
  }

  /** The tag of preferences not created yet: no version is written like it, and it is read as no version. */
  const NOT_YET_CREATED := "new"

  lemma NewIsNoVersion(v: nat)
    ensures Decimal(v) != NOT_YET_CREATED && VersionNumber(NOT_YET_CREATED) == -1
    ensures ParseETagHeader(Some(EtagFor(NOT_YET_CREATED))) == Some(NOT_YET_CREATED)
  {
    DecimalValue(v);
    assert NOT_YET_CREATED[0] == 'n';
    PlainTag(NOT_YET_CREATED);
  }
}
