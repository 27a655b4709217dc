/** The string operations the program relies on: trimming, lower case (of ASCII letters) and substring search. */
module Text {

  /** The characters `String.prototype.trim` removes. */
  predicate IsSpace(c: char) {
    || '\t' <= c <= '\r' || c == ' ' || c == '\U{00A0}' || c == '\U{1680}' || '\U{2000}' <= c <= '\U{200A}'
    || c == '\U{2028}' || c == '\U{2029}' || c == '\U{202F}' || c == '\U{205F}' || c == '\U{3000}' || c == '\U{FEFF}'
  }

  /** They are the 25 white space and line ending characters of ECMAScript, and no others. */
  lemma SpacesAre(c: char)
    ensures IsSpace(c) <==>
              c in ['\U{0009}', '\U{000A}', '\U{000B}', '\U{000C}', '\U{000D}', '\U{0020}', '\U{00A0}', '\U{1680}',
                    '\U{2000}', '\U{2001}', '\U{2002}', '\U{2003}', '\U{2004}', '\U{2005}', '\U{2006}', '\U{2007}',
                    '\U{2008}', '\U{2009}', '\U{200A}', '\U{2028}', '\U{2029}', '\U{202F}', '\U{205F}', '\U{3000}',
                    '\U{FEFF}']
  {
  }

  function TrimStart(s: string): (r: string)
    ensures r != "" ==> !IsSpace(r[0])
  {
    if s != "" && IsSpace(s[0]) then TrimStart(s[1..]) else s
  }

  function TrimEnd(s: string): (r: string)
    ensures r == "" || (|r| <= |s| && !IsSpace(r[|r| - 1]) && r[0] == s[0])
  {
    if s != "" && IsSpace(s[|s| - 1]) then TrimEnd(s[..|s| - 1]) else s
  }

  function Trim(s: string): string { TrimEnd(TrimStart(s)) }

  predicate AllSpace(s: string) {
    forall i :: 0 <= i < |s| ==> IsSpace(s[i])
  }

  lemma {:induction false} TrimStartDrops(pre: string, s: string)
    requires AllSpace(pre)
    ensures TrimStart(pre + s) == TrimStart(s)
  {
    if pre == "" {
      assert pre + s == s;
    } else {
      assert (pre + s)[1..] == pre[1..] + s;
      TrimStartDrops(pre[1..], s);
    }
  }

  lemma {:induction false} TrimEndDrops(s: string, post: string)
    requires AllSpace(post)
    ensures TrimEnd(s + post) == TrimEnd(s)
  {
    if post == "" {
      assert s + post == s;
    } else {
      var n := |post| - 1;
      assert (s + post)[..|s + post| - 1] == s + post[..n];
      TrimEndDrops(s, post[..n]);
    }
  }

  /** Surrounding space is what is removed, and all that is removed. */
  lemma TrimRemovesExactlyTheSpace(pre: string, s: string, post: string)
    requires AllSpace(pre) && AllSpace(post)
    requires s != "" && !IsSpace(s[0]) && !IsSpace(s[|s| - 1])
    ensures Trim(pre + s + post) == s
  {
    hide IsSpace;
    assert pre + s + post == pre + (s + post);
    TrimStartDrops(pre, s + post);
    TrimEndDrops(s, post);
  }

  lemma TrimIsIdempotent(s: string)
    ensures Trim(Trim(s)) == Trim(s)
  {
    hide IsSpace;
  }

  function LowerChar(c: char): char {
    if 'A' <= c <= 'Z' then c - 'A' + 'a' else c
  }

  function Lower(s: string): (r: string)
    ensures |r| == |s| && forall i :: 0 <= i < |s| ==> r[i] == LowerChar(s[i])
  {
    seq(|s|, i requires 0 <= i < |s| => LowerChar(s[i]))
  }

  /** The capitals become the small letters in the same place of the alphabet, and nothing else changes. */
  lemma LowerMeaning(c: char)
    ensures var capitals, small := "ABCDEFGHIJKLMNOPQRSTUVWXYZ", "abcdefghijklmnopqrstuvwxyz";
            && (forall i :: 0 <= i < 26 ==> LowerChar(capitals[i]) == small[i])
            && (c !in capitals ==> LowerChar(c) == c)
  {
    var capitals := "ABCDEFGHIJKLMNOPQRSTUVWXYZ";
    assert forall i :: 0 <= i < 26 ==> capitals[i] == 'A' + i as char;
    if 'A' <= c <= 'Z' { assert capitals[(c - 'A') as int] == c; }
  }

  predicate OccursAt(s: string, word: string, i: nat) {
    i + |word| <= |s| && s[i..i + |word|] == word
  }

  predicate Includes(s: string, word: string) {
    exists i :: 0 <= i <= |s| && OccursAt(s, word, i)
  }
  ghost predicate Around(s: string, before: string, word: string, after: string) {
    s == before + word + after
  }

  /** A text includes a word exactly if it can be cut into something, the word, and something. */
  lemma IncludesIff(s: string, word: string)
    ensures Includes(s, word) <==> exists before, after :: Around(s, before, word, after)
  {
    if Includes(s, word) {
      var i :| 0 <= i <= |s| && OccursAt(s, word, i);
      assert Around(s, s[..i], word, s[i + |word|..]);
    }
    forall before, after | Around(s, before, word, after) ensures Includes(s, word) {
      assert s[|before|..|before| + |word|] == word;
      assert OccursAt(s, word, |before|);
    }
  }

  // ---------- words ----------

  /** The part of the text before its first space. */
  function FirstWord(s: string): (w: string)
    ensures |w| <= |s| && (s != "" && !IsSpace(s[0]) ==> w != "")
  {
    if s == "" || IsSpace(s[0]) then "" else [s[0]] + FirstWord(s[1..])
  }

  /** The words of a text, whatever spaces separate and surround them. */
  function Words(s: string): seq<string>
    decreases |s|
  {
    if s == "" then []
    else if IsSpace(s[0]) then Words(s[1..])
    else [FirstWord(s)] + Words(s[|FirstWord(s)|..])
  }

  function Join(words: seq<string>): string {
    if words == [] then ""
    else if |words| == 1 then words[0]
    else words[0] + " " + Join(words[1..])
  }

  predicate IsWord(w: string) {
    w != "" && forall i :: 0 <= i < |w| ==> !IsSpace(w[i])
  }

  lemma SpaceIsSpace()
    ensures IsSpace(' ')
  {
  }

  lemma {:induction false} FirstWordIs(w: string, rest: string)
    requires (forall i :: 0 <= i < |w| ==> !IsSpace(w[i])) && (rest == "" || IsSpace(rest[0]))
    ensures FirstWord(w + rest) == w
  {
    hide IsSpace;
    if w == "" {
      assert w + rest == rest;
    } else {
      assert (w + rest)[1..] == w[1..] + rest;
      FirstWordIs(w[1..], rest);
    }
  }

  lemma {:induction false} FirstWordStops(s: string)
    ensures var w := FirstWord(s);
            && s == w + s[|w|..] && (forall i :: 0 <= i < |w| ==> !IsSpace(w[i]))
            && (s[|w|..] == "" || IsSpace(s[|w|..][0]))
  {
    hide IsSpace;
    if s == "" || IsSpace(s[0]) {
    } else {
      var w := FirstWord(s[1..]);
      assert FirstWord(s) == [s[0]] + w;
      hide FirstWord;
      FirstWordStops(s[1..]);
      assert s == [s[0]] + s[1..];
      assert s[|w| + 1..] == s[1..][|w|..];
    }
  }

  /** Splitting a joined list of words gives the words back. */
  lemma {:induction false} WordsOfJoin(words: seq<string>)
    requires forall w :: w in words ==> IsWord(w)
    ensures Words(Join(words)) == words
  {
    if words == [] {
    } else {
      var w, rest := words[0], if |words| == 1 then "" else " " + Join(words[1..]);
      SpaceIsSpace();
      assert Join(words) == w + rest;
      assert w in words;
      FirstWordIs(w, rest);
      assert (w + rest)[|w|..] == rest;
      WordsOfJoin(words[1..]);
      hide IsSpace;
      if |words| > 1 { assert rest[1..] == Join(words[1..]); }
    }
  }

  lemma {:induction false} WordsAreWords(s: string)
    ensures forall w :: w in Words(s) ==> IsWord(w)
    decreases |s|
  {
    hide IsSpace;
    if s == "" {
    } else if IsSpace(s[0]) {
      WordsAreWords(s[1..]);
    } else {
      FirstWordStops(s);
      WordsAreWords(s[|FirstWord(s)|..]);
    }
  }

  /** Trimming takes no word away. */
  lemma WordsOfTrim(s: string)
    ensures Words(Trim(s)) == Words(s)
  {
    WordsOfTrimStart(s);
    WordsOfTrimEnd(TrimStart(s));
  }

  lemma {:induction false} WordsOfTrimStart(s: string)
    ensures Words(TrimStart(s)) == Words(s)
  {
    hide IsSpace;
    if s == "" || !IsSpace(s[0]) {
    } else {
      WordsOfTrimStart(s[1..]);
    }
  }

  lemma {:induction false} WordsOfTrimEnd(s: string)
    ensures Words(TrimEnd(s)) == Words(s)
  {
    hide IsSpace;
    if s == "" || !IsSpace(s[|s| - 1]) {
    } else {
      var front := s[..|s| - 1];
      WordsOfTrimEnd(front);
      WordsBeforeSpace(front, s[|s| - 1]);
      assert front + [s[|s| - 1]] == s;
    }
  }

  lemma {:induction false} WordsBeforeSpace(s: string, c: char)
    requires IsSpace(c)
    ensures Words(s + [c]) == Words(s)
    decreases |s|
  {
    hide IsSpace;
    if s == "" {
      assert s + [c] == [c] && [c][1..] == "";
    } else if IsSpace(s[0]) {
      assert (s + [c])[1..] == s[1..] + [c];
      WordsBeforeSpace(s[1..], c);
    } else {
      FirstWordStops(s);
      var w := FirstWord(s);
      var rest := s[|w|..];
      assert s + [c] == w + (rest + [c]);
      FirstWordIs(w, rest + [c]);
      assert (s + [c])[|w|..] == rest + [c];
      WordsBeforeSpace(rest, c);
    }
  }

  lemma LowerKeepsSpace(c: char)
    ensures IsSpace(LowerChar(c)) <==> IsSpace(c)
  {
  }

  lemma {:induction false} LowerOfTrimStart(s: string)
    ensures TrimStart(Lower(s)) == Lower(TrimStart(s))
  {
    hide IsSpace;
    if s == "" {
    } else {
      LowerKeepsSpace(s[0]);
      assert Lower(s)[1..] == Lower(s[1..]);
      LowerOfTrimStart(s[1..]);
    }
  }

  lemma {:induction false} LowerOfTrimEnd(s: string)
    ensures TrimEnd(Lower(s)) == Lower(TrimEnd(s))
  {
    hide IsSpace;
    if s == "" {
    } else {
      LowerKeepsSpace(s[|s| - 1]);
      assert Lower(s)[..|s| - 1] == Lower(s[..|s| - 1]);
      LowerOfTrimEnd(s[..|s| - 1]);
    }
  }

  lemma LowerOfTrim(s: string)
    ensures Trim(Lower(s)) == Lower(Trim(s))
  {
    LowerOfTrimStart(s);
    LowerOfTrimEnd(TrimStart(s));
  }
}
