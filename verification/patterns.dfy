/** The two regular expressions `analyze-saved-image` applies to a reply that is not JSON,
    written out as searches with the leftmost-match semantics of JavaScript's `match`:
    `/score[:\s]*(\d+)/i` and `/(w1|w2|...)[^.]*\./i`. With the `i` flag and no `u` flag
    only ASCII letters compare case-insensitively. */
module Patterns {
  import opened Wrappers
  import opened Text

  /** A character of `[:\s]`. */
  predicate IsScoreSeparator(c: char) {
    c == ':' || IsSpace(c)
  }

  /** The end of the longest run of separators starting at `i`. */
  function SkipSeparators(s: string, i: nat): (j: nat)
    requires i <= |s|
    ensures i <= j <= |s|
    ensures forall k :: i <= k < j ==> IsScoreSeparator(s[k])
    ensures j == |s| || !IsScoreSeparator(s[j])
    decreases |s| - i
  {
    if i < |s| && IsScoreSeparator(s[i]) then SkipSeparators(s, i + 1) else i
  }

  /** The end of the longest run of decimal digits starting at `i`. */
  function DigitRun(s: string, i: nat): (j: nat)
    requires i <= |s|
    ensures i <= j <= |s|
    ensures forall k :: i <= k < j ==> IsDigit(s[k])
    ensures j == |s| || !IsDigit(s[j])
    decreases |s| - i
  {
    if i < |s| && IsDigit(s[i]) then DigitRun(s, i + 1) else i
  }

  /** The captured digits of a match starting at `p`, if the pattern matches there. Greedy
      `[:\s]*` cannot usefully give back characters, as none of them is a digit, so a match
      exists exactly when a digit follows the longest separator run. */
  function ScoreAt(s: string, p: nat): Option<string>
    requires p <= |s|
  {
    if MatchesAtCI(s, p, "score") then
      var j := SkipSeparators(s, p + 5);
      var e := DigitRun(s, j);
      if e > j then Some(s[j..e]) else None
    else None
  }

  /** The captured digits of the leftmost match at or after `p`. */
  function ScoreFrom(s: string, p: nat): (r: Option<string>)
    requires p <= |s|
    ensures r.Some? ==> |r.value| > 0 && AllDigits(r.value)
    decreases |s| - p
  {
    match ScoreAt(s, p)
    case Some(d) => Some(d)
    case None => if p == |s| then None else ScoreFrom(s, p + 1)
  }

  /** `parseInt(content.match(/score[:\s]*(\d+)/i)?.[1] || '75')`. */
  function ExtractScore(s: string): nat {
    match ScoreFrom(s, 0)
    case Some(d) => DigitsToNat(d)
    case None => 75
  }

  /** A score written after the word "score" is found again, provided no earlier position
      starts a match: the digits are read back exactly. */
  lemma ScoreFromFinds(s: string, p: nat, q: nat, n: nat)
    requires p <= q <= |s|
    requires forall i :: p <= i < q ==> ScoreAt(s, i).None?
    requires MatchesAtCI(s, q, "score")
    requires var j := SkipSeparators(s, q + 5);
             j + |NatToString(n)| <= |s| && s[j..j + |NatToString(n)|] == NatToString(n)
             && (j + |NatToString(n)| == |s| || !IsDigit(s[j + |NatToString(n)|]))
    ensures ScoreFrom(s, p) == Some(NatToString(n))
  {
    var d := NatToString(n);
    ScoreAtDigits(s, q, d);
    ScoreFromStops(s, q);
    ScoreFromLeftmost(s, p, q);
  }

  /** The pattern matches at `q` when "score", separators and a maximal digit string `d`
      follow; the capture is `d`. */
  lemma ScoreAtDigits(s: string, q: nat, d: string)
    requires q <= |s| && MatchesAtCI(s, q, "score") && |d| > 0 && AllDigits(d)
    requires var j := SkipSeparators(s, q + 5);
             j + |d| <= |s| && s[j..j + |d|] == d && (j + |d| == |s| || !IsDigit(s[j + |d|]))
    ensures ScoreAt(s, q) == Some(d)
  {
    var j := SkipSeparators(s, q + 5);
    DigitRunOver(s, j, d);
  }

  /** Positions where the pattern does not match are passed over: the search from `p`
      finds what the search from `q` finds. */
  lemma {:induction false} ScoreFromLeftmost(s: string, p: nat, q: nat)
    requires p <= q <= |s|
    requires forall i :: p <= i < q ==> ScoreAt(s, i).None?
    ensures ScoreFrom(s, p) == ScoreFrom(s, q)
    decreases q - p
  {
    if p < q {
      ScoreFromSkips(s, p);
      ScoreFromLeftmost(s, p + 1, q);
    }
  }

  /** A position where the pattern does not match passes the search on. */
  lemma ScoreFromSkips(s: string, p: nat)
    requires p < |s| && ScoreAt(s, p).None?
    ensures ScoreFrom(s, p) == ScoreFrom(s, p + 1)
  {
  }

  /** A position where the pattern matches ends the search. */
  lemma ScoreFromStops(s: string, p: nat)
    requires p <= |s| && ScoreAt(s, p).Some?
    ensures ScoreFrom(s, p) == ScoreAt(s, p)
  {
  }

  /** The digit run starting where a digit string `d` is written, and not followed by a digit,
      ends right after `d`. */
  lemma {:induction false} DigitRunOver(s: string, j: nat, d: string)
    requires AllDigits(d) && j + |d| <= |s| && s[j..j + |d|] == d
    requires j + |d| == |s| || !IsDigit(s[j + |d|])
    ensures DigitRun(s, j) == j + |d|
    decreases |d|
  {
    if |d| > 0 {
      assert s[j] == d[0];
      assert s[j + 1..j + 1 + |d[1..]|] == d[1..];
      DigitRunOver(s, j + 1, d[1..]);
    }
  }

  /** The position of the first `.` at or after `i`. */
  function FirstDot(s: string, i: nat): (r: Option<nat>)
    requires i <= |s|
    ensures r.Some? ==> i <= r.value < |s| && s[r.value] == '.'
    ensures r.Some? ==> forall k :: i <= k < r.value ==> s[k] != '.'
    ensures r.None? ==> forall k :: i <= k < |s| ==> s[k] != '.'
    decreases |s| - i
  {
    if i == |s| then None else if s[i] == '.' then Some(i) else FirstDot(s, i + 1)
  }

  /** The match of `(w1|w2|...)[^.]*\.` starting at `p`: the first alternative that matches
      there, followed by everything up to and including the next dot. */
  function SentenceAt(s: string, p: nat, words: seq<string>): Option<string>
    requires p <= |s|
  {
    if |words| == 0 then None
    else if MatchesAtCI(s, p, words[0]) && FirstDot(s, p + |words[0]|).Some? then
      Some(s[p..FirstDot(s, p + |words[0]|).value + 1])
    else SentenceAt(s, p, words[1..])
  }

  /** The leftmost match at or after `p`: a piece of `s` that starts with one of the words and
      whose only dot is its last character. */
  function SentenceFrom(s: string, p: nat, words: seq<string>): (r: Option<string>)
    requires p <= |s|
    decreases |s| - p
  {
    match SentenceAt(s, p, words)
    case Some(m) => Some(m)
    case None => if p == |s| then None else SentenceFrom(s, p + 1, words)
  }

  /** `s` has, at `p`, a case-insensitive occurrence of `w` that is followed by a dot. */
  predicate SentenceStartsAt(s: string, p: nat, w: string) {
    MatchesAtCI(s, p, w) && FirstDot(s, p + |w|).Some?
  }

  /** The word a match found at `p` starts with: the match is the piece of `s` from that
      word up to and including the first dot after it. */
  function MatchedWord(s: string, p: nat, words: seq<string>): (w: string)
    requires p <= |s| && SentenceAt(s, p, words).Some?
    ensures w in words && SentenceStartsAt(s, p, w)
    ensures SentenceAt(s, p, words).value == s[p..FirstDot(s, p + |w|).value + 1]
  {
    if MatchesAtCI(s, p, words[0]) && FirstDot(s, p + |words[0]|).Some? then words[0]
    else
      var w := MatchedWord(s, p, words[1..]);
      assert w in words[1..];
      w
  }

  /** Where one of the words starts a sentence, the search at that position succeeds. */
  lemma {:induction false} SentenceAtFinds(s: string, p: nat, words: seq<string>, w: string)
    requires p <= |s| && w in words && SentenceStartsAt(s, p, w)
    ensures SentenceAt(s, p, words).Some?
  {
    if !(MatchesAtCI(s, p, words[0]) && FirstDot(s, p + |words[0]|).Some?) {
      assert w != words[0];
      assert w in words[1..];
      SentenceAtFinds(s, p, words[1..], w);
    }
  }

  /** The search never misses a sentence: one starting at or after `p` makes it succeed. */
  lemma {:induction false} SentenceFromFinds(s: string, p: nat, q: nat, words: seq<string>, w: string)
    requires p <= q <= |s| && w in words && SentenceStartsAt(s, q, w)
    ensures SentenceFrom(s, p, words).Some?
    decreases q - p
  {
    if SentenceAt(s, p, words).None? {
      if p == q {
        SentenceAtFinds(s, q, words, w);
      } else {
        SentenceFromFinds(s, p + 1, q, words, w);
      }
    }
  }

  /** No position from `p` up to, not including, `q` starts a match. */
  predicate NoSentenceBetween(s: string, p: nat, q: nat, words: seq<string>)
    requires q <= |s|
  {
    forall i :: p <= i < q ==> SentenceAt(s, i, words).None?
  }

  /** The position of what the search finds: a match there, and none at an earlier
      position. */
  function MatchPosition(s: string, p: nat, words: seq<string>): (q: nat)
    requires p <= |s| && SentenceFrom(s, p, words).Some?
    ensures p <= q <= |s| && SentenceAt(s, q, words) == SentenceFrom(s, p, words)
    ensures NoSentenceBetween(s, p, q, words)
    decreases |s| - p
  {
    if SentenceAt(s, p, words).None? then
      var q := MatchPosition(s, p + 1, words);
      assert NoSentenceBetween(s, p, q, words);
      q
    else
      assert NoSentenceBetween(s, p, p, words);
      p
  }
}
