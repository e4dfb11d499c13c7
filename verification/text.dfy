/** String operations of the JavaScript runtime used by the application: `trim`, `split`,
    `join`, `substring`, `includes`, `replace`, ASCII case mapping, and decimal rendering and
    parsing of non-negative integers. Strings are sequences of characters. */
module Text {

  /** The characters JavaScript's `trim` removes and the regular-expression class `\s` matches:
      the ECMAScript WhiteSpace and LineTerminator code points. */
  predicate IsSpace(c: char) {
    || c == ' ' || c == '\t' || c == '\n' || c == '\r'
    || c == '\U{000B}' || c == '\U{000C}' || c == '\U{00A0}' || c == '\U{1680}'
    || ('\U{2000}' <= c <= '\U{200A}')
    || c == '\U{2028}' || c == '\U{2029}' || c == '\U{202F}' || c == '\U{205F}'
    || c == '\U{3000}' || c == '\U{FEFF}'
  }

  /** Every character of `s` is white space (the empty string included). */
  predicate Blank(s: string) {
    forall i :: 0 <= i < |s| ==> IsSpace(s[i])
  }

  predicate IsDigit(c: char) {
    '0' <= c <= '9'
  }

  predicate AllDigits(s: string) {
    forall i :: 0 <= i < |s| ==> IsDigit(s[i])
  }

  predicate IsPrefix(p: string, s: string) {
    |p| <= |s| && s[..|p|] == p
  }

  /** `s.substring(0, n)` for a non-negative `n`. */
  function Take(s: string, n: nat): (r: string)
    ensures |r| == if n < |s| then n else |s|
    ensures IsPrefix(r, s)
    ensures n >= |s| ==> r == s
  {
    if n < |s| then s[..n] else s
  }

  /** `s.substring(0, n) + (s.length > n ? '...' : '')`. */
  function Ellipsize(s: string, n: nat): (r: string)
    ensures |s| <= n ==> r == s
    ensures |s| > n ==> r == s[..n] + "..." && |r| == n + 3
  {
    Take(s, n) + (if |s| > n then "..." else "")
  }

  /** The index of the first character at or after `i` that is not white space, or `|s|`. */
  function SkipSpace(s: string, i: nat): (j: nat)
    requires i <= |s|
    ensures i <= j <= |s|
    ensures forall k :: i <= k < j ==> IsSpace(s[k])
    ensures j < |s| ==> !IsSpace(s[j])
    decreases |s| - i
  {
    if i < |s| && IsSpace(s[i]) then SkipSpace(s, i + 1) else i
  }

  /** The index just after the last character before `j` that is not white space, or 0. */
  function BackSpace(s: string, j: nat): (i: nat)
    requires j <= |s|
    ensures i <= j
    ensures forall k :: i <= k < j ==> IsSpace(s[k])
    ensures i > 0 ==> !IsSpace(s[i - 1])
  {
    if j > 0 && IsSpace(s[j - 1]) then BackSpace(s, j - 1) else j
  }

  /** The number of characters `s.trim()` drops at the start. */
  function TrimOffset(s: string): nat {
    SkipSpace(s, 0)
  }

  /** `s.trim()`: the infix of `s` that neither starts nor ends with white space, such that
      what it drops on either side is white space only. */
  function Trim(s: string): (r: string)
    ensures TrimOffset(s) + |r| <= |s| && r == s[TrimOffset(s)..TrimOffset(s) + |r|]
    ensures forall k :: 0 <= k < TrimOffset(s) ==> IsSpace(s[k])
    ensures forall k :: TrimOffset(s) + |r| <= k < |s| ==> IsSpace(s[k])
    ensures r == [] || (!IsSpace(r[0]) && !IsSpace(r[|r| - 1]))
  {
    var i := SkipSpace(s, 0);
    var j := BackSpace(s, |s|);
    if j <= i then [] else s[i..j]
  }

  /** A string trims to the empty string exactly when it is blank: JavaScript's
      `!s.trim()` is the blank test. */
  lemma TrimEmptyIffBlank(s: string)
    ensures Trim(s) == [] <==> Blank(s)
  {
    var r := Trim(s);
    if r != [] {
      assert !IsSpace(s[TrimOffset(s)]) by { assert s[TrimOffset(s)] == r[0]; }
    }
  }

  /** `parts.join(sep)`. */
  function Join(parts: seq<string>, sep: string): string
  {
    if |parts| == 0 then []
    else if |parts| == 1 then parts[0]
    else parts[0] + sep + Join(parts[1..], sep)
  }

  /** Appending one part extends the joined string by the separator and that part. */
  lemma {:induction false} JoinSnoc(parts: seq<string>, x: string, sep: string)
    requires |parts| > 0
    ensures Join(parts + [x], sep) == Join(parts, sep) + sep + x
  {
    if |parts| == 1 {
      assert parts + [x] == [parts[0], x];
    } else {
      assert (parts + [x])[1..] == parts[1..] + [x];
      JoinSnoc(parts[1..], x, sep);
    }
  }

  /** `xs.filter(Boolean)` on strings: the non-empty strings of `xs`, in their order. */
  function KeepNonEmpty(xs: seq<string>): (r: seq<string>)
    ensures |r| <= |xs|
    ensures forall k :: 0 <= k < |r| ==> r[k] != [] && r[k] in xs
    ensures forall x :: x in xs && x != [] ==> x in r
  {
    if |xs| == 0 then []
    else
      var rest := KeepNonEmpty(xs[1..]);
      assert forall x :: x in xs[1..] ==> x in xs;
      if xs[0] != [] then [xs[0]] + rest else rest
  }

  /** Filtering a list of non-empty strings keeps all of it. */
  lemma {:induction false} KeepAllNonEmpty(xs: seq<string>)
    requires forall k :: 0 <= k < |xs| ==> xs[k] != []
    ensures KeepNonEmpty(xs) == xs
  {
    if |xs| > 0 {
      assert forall k :: 0 <= k < |xs| - 1 ==> xs[1..][k] == xs[k + 1];
      KeepAllNonEmpty(xs[1..]);
      assert xs == [xs[0]] + xs[1..];
    }
  }

  /** Joining non-empty parts gives the empty string only when there are no parts. */
  lemma JoinEmpty(parts: seq<string>, sep: string)
    requires forall k :: 0 <= k < |parts| ==> parts[k] != []
    ensures Join(parts, sep) == [] <==> parts == []
  {
    if |parts| > 1 {
      assert Join(parts, sep) == parts[0] + sep + Join(parts[1..], sep);
    }
  }

  /** Every part occurs in the joined string. */
  lemma {:induction false} JoinHasPart(parts: seq<string>, sep: string, k: nat)
    requires k < |parts|
    ensures exists i :: OccursAt(Join(parts, sep), parts[k], i)
  {
    var j := Join(parts, sep);
    if |parts| == 1 {
      assert OccursAt(j, parts[0], 0);
    } else if k == 0 {
      assert j == parts[0] + (sep + Join(parts[1..], sep));
      assert j[0..|parts[0]|] == parts[0];
      assert OccursAt(j, parts[0], 0);
    } else {
      JoinHasPart(parts[1..], sep, k - 1);
      var rest := Join(parts[1..], sep);
      var i :| OccursAt(rest, parts[1..][k - 1], i);
      var off := |parts[0]| + |sep|;
      assert j == (parts[0] + sep) + rest;
      assert j[off + i..off + i + |parts[k]|] == rest[i..i + |parts[k]|];
      assert OccursAt(j, parts[k], off + i);
    }
  }

  /** `s.split(sep)` for a non-empty separator: separators are found left to right without
      overlapping. */
  function Split(s: string, sep: string): (parts: seq<string>)
    requires |sep| > 0
    ensures |parts| >= 1
    decreases |s|
  {
    if |s| < |sep| then [s]
    else if s[..|sep|] == sep then [[]] + Split(s[|sep|..], sep)
    else
      var rest := Split(s[1..], sep);
      [[s[0]] + rest[0]] + rest[1..]
  }

  /** Joining the pieces of a split with the same separator gives the original string back. */
  lemma {:induction false} SplitJoin(s: string, sep: string)
    requires |sep| > 0
    ensures Join(Split(s, sep), sep) == s
    decreases |s|
  {
    if |s| < |sep| {
    } else if s[..|sep|] == sep {
      var rest := Split(s[|sep|..], sep);
      SplitJoin(s[|sep|..], sep);
      assert Split(s, sep) == [[]] + rest;
      assert ([[]] + rest)[1..] == rest;
      assert s == sep + s[|sep|..];
    } else {
      var rest := Split(s[1..], sep);
      SplitJoin(s[1..], sep);
      assert Split(s, sep) == [[s[0]] + rest[0]] + rest[1..];
      JoinExtendHead(s[0], rest, sep);
      assert s == [s[0]] + s[1..];
    }
  }

  /** Putting a character in front of the first part puts it in front of the join. */
  lemma JoinExtendHead(c: char, parts: seq<string>, sep: string)
    requires |parts| >= 1
    ensures Join([[c] + parts[0]] + parts[1..], sep) == [c] + Join(parts, sep)
  {
    var p := [[c] + parts[0]] + parts[1..];
    assert p[0] == [c] + parts[0] && p[1..] == parts[1..];
    if |parts| > 1 {
      var tail := Join(parts[1..], sep);
      assert Join(p, sep) == ([c] + parts[0]) + sep + tail;
      assert Join(parts, sep) == parts[0] + sep + tail;
      assert ([c] + parts[0]) + sep + tail == [c] + (parts[0] + sep + tail);
    }
  }

  /** A string without the separator character splits into itself alone. */
  lemma {:induction false} SplitWithoutSeparator(x: string, c: char)
    requires c !in x
    ensures Split(x, [c]) == [x]
    decreases |x|
  {
    if |x| > 0 {
      assert x[..1] == [x[0]];
      SplitWithoutSeparator(x[1..], c);
      assert [x[0]] + x[1..] == x;
    }
  }

  /** A piece without the separator character, then the separator, splits off as the first
      piece. */
  lemma {:induction false} SplitAfterPiece(x: string, c: char, rest: string)
    requires c !in x
    ensures Split(x + [c] + rest, [c]) == [x] + Split(rest, [c])
    decreases |x|
  {
    var s := x + [c] + rest;
    if |x| == 0 {
      assert s[..1] == [c] && s[1..] == rest;
    } else {
      assert s[..1] == [x[0]];
      assert s[1..] == x[1..] + [c] + rest;
      SplitAfterPiece(x[1..], c, rest);
      assert [x[0]] + x[1..] == x;
    }
  }

  /** Splitting a join of pieces that do not contain the one-character separator gives the
      pieces back, provided there is at least one piece. */
  lemma {:induction false} JoinSplit(parts: seq<string>, c: char)
    requires |parts| > 0 && forall i :: 0 <= i < |parts| ==> c !in parts[i]
    ensures Split(Join(parts, [c]), [c]) == parts
  {
    if |parts| == 1 {
      SplitWithoutSeparator(parts[0], c);
    } else {
      JoinSplit(parts[1..], c);
      SplitAfterPiece(parts[0], c, Join(parts[1..], [c]));
      assert [parts[0]] + parts[1..] == parts;
    }
  }

  /** Every character of a split piece is a character of the original string. */
  lemma {:induction false} SplitPieceInside(s: string, sep: string, k: nat, j: nat)
    requires |sep| > 0
    requires k < |Split(s, sep)| && j < |Split(s, sep)[k]|
    ensures exists i :: 0 <= i < |s| && s[i] == Split(s, sep)[k][j]
    decreases |s|
  {
    if |s| < |sep| {
      assert s[j] == Split(s, sep)[k][j];
    } else if s[..|sep|] == sep {
      var t := s[|sep|..];
      assert Split(s, sep) == [[]] + Split(t, sep);
      SplitPieceInside(t, sep, k - 1, j);
      var i :| 0 <= i < |t| && t[i] == Split(t, sep)[k - 1][j];
      assert s[|sep| + i] == t[i];
    } else {
      var t := s[1..];
      var rest := Split(t, sep);
      var parts := [[s[0]] + rest[0]] + rest[1..];
      assert Split(s, sep) == parts;
      if k == 0 && j == 0 {
        assert s[0] == parts[0][0];
      } else if k == 0 {
        assert parts[0][j] == rest[0][j - 1];
        SplitPieceInside(t, sep, 0, j - 1);
        var i :| 0 <= i < |t| && t[i] == rest[0][j - 1];
        assert s[1 + i] == t[i];
      } else {
        assert parts[k] == rest[k];
        SplitPieceInside(t, sep, k, j);
        var i :| 0 <= i < |t| && t[i] == rest[k][j];
        assert s[1 + i] == t[i];
      }
    }
  }

  /** A blank string splits into blank pieces only. */
  lemma SplitBlank(s: string, sep: string)
    requires |sep| > 0 && Blank(s)
    ensures forall k :: 0 <= k < |Split(s, sep)| ==> Blank(Split(s, sep)[k])
  {
    forall k, j | 0 <= k < |Split(s, sep)| && 0 <= j < |Split(s, sep)[k]|
      ensures IsSpace(Split(s, sep)[k][j])
    {
      SplitPieceInside(s, sep, k, j);
    }
  }

  /** The last piece of `s.split(sep)`, i.e. `s.split(sep).pop()`. */
  function LastPiece(s: string, sep: string): string
    requires |sep| > 0
  {
    var parts := Split(s, sep);
    parts[|parts| - 1]
  }

  predicate IsSuffix(x: string, s: string) {
    |x| <= |s| && s[|s| - |x|..] == x
  }

  /** With a one-character separator no piece of a split contains that character. */
  lemma {:induction false} SplitPiecesLackSeparator(s: string, sep: string)
    requires |sep| == 1
    ensures forall k, j :: 0 <= k < |Split(s, sep)| && 0 <= j < |Split(s, sep)[k]| ==> Split(s, sep)[k][j] != sep[0]
    decreases |s|
  {
    if |s| < |sep| {
    } else if s[..|sep|] == sep {
      SplitPiecesLackSeparator(s[|sep|..], sep);
      assert Split(s, sep)[1..] == Split(s[|sep|..], sep);
    } else {
      SplitPiecesLackSeparator(s[1..], sep);
      assert s[0] != sep[0] by { assert s[..1] == [s[0]]; }
    }
  }

  /** `s.split(c).pop()` for a one-character separator: the text after the last `c`, or the
      whole string when `c` does not occur. */
  function PopPiece(s: string, c: char): (p: string)
    ensures c !in p
    ensures p == s || IsSuffix([c] + p, s)
  {
    SplitPiecesLackSeparator(s, [c]);
    LastPieceShape(s, [c]);
    LastPiece(s, [c])
  }

  /** `s.split(sep).pop()` is either the whole string (no separator occurs) or the text after
      the last separator: `s` ends with the separator followed by it. */
  lemma LastPieceShape(s: string, sep: string)
    requires |sep| > 0
    ensures LastPiece(s, sep) == s || IsSuffix(sep + LastPiece(s, sep), s)
  {
    var parts := Split(s, sep);
    var n := |parts|;
    SplitJoin(s, sep);
    if n > 1 {
      assert parts == parts[..n - 1] + [parts[n - 1]];
      JoinSnoc(parts[..n - 1], parts[n - 1], sep);
      assert s == Join(parts[..n - 1], sep) + (sep + parts[n - 1]);
    }
  }

  /** The first piece of `s.split(sep)`, i.e. `s.split(sep)[0]`. */
  function FirstPiece(s: string, sep: string): string
    requires |sep| > 0
  {
    Split(s, sep)[0]
  }

  /** `s.includes(sub)`. */
  predicate Contains(s: string, sub: string)
    decreases |s|
  {
    IsPrefix(sub, s) || (|s| > 0 && Contains(s[1..], sub))
  }

  /** `sub` occurs in `s` starting at position `i`. */
  predicate OccursAt(s: string, sub: string, i: int) {
    0 <= i && i + |sub| <= |s| && s[i..i + |sub|] == sub
  }

  /** `Contains` holds exactly when `sub` occurs at some position of `s`. */
  lemma {:induction false} ContainsIff(s: string, sub: string)
    ensures Contains(s, sub) <==> exists i :: OccursAt(s, sub, i)
    decreases |s|
  {
    if IsPrefix(sub, s) {
      assert OccursAt(s, sub, 0);
    } else if |s| > 0 {
      ContainsIff(s[1..], sub);
      if Contains(s[1..], sub) {
        var i :| OccursAt(s[1..], sub, i);
        assert s[i + 1..i + 1 + |sub|] == s[1..][i..i + |sub|];
        assert OccursAt(s, sub, i + 1);
      }
      if exists i :: OccursAt(s, sub, i) {
        var i :| OccursAt(s, sub, i);
        assert i != 0;
        assert s[1..][i - 1..i - 1 + |sub|] == s[i..i + |sub|];
        assert OccursAt(s[1..], sub, i - 1);
      }
    } else {
    }
  }

  /** `s.replace(pat, rep)` with a string pattern: only the first occurrence is replaced. */
  function ReplaceFirst(s: string, pat: string, rep: string): (r: string)
    decreases |s|
  {
    if IsPrefix(pat, s) then rep + s[|pat|..]
    else if |s| == 0 then s
    else [s[0]] + ReplaceFirst(s[1..], pat, rep)
  }

  /** Without an occurrence of the pattern the string is returned unchanged. */
  lemma {:induction false} ReplaceFirstAbsent(s: string, pat: string, rep: string)
    requires !Contains(s, pat)
    ensures ReplaceFirst(s, pat, rep) == s
    decreases |s|
  {
    if |s| > 0 {
      ReplaceFirstAbsent(s[1..], pat, rep);
      assert s == [s[0]] + s[1..];
    }
  }

  /** ASCII case mapping, as JavaScript applies it to the ASCII range. */
  function UpperChar(c: char): char {
    if 'a' <= c <= 'z' then (c as int - 32) as char else c
  }

  function LowerChar(c: char): char {
    if 'A' <= c <= 'Z' then (c as int + 32) as char else c
  }

  function Upper(s: string): (r: string)
    ensures |r| == |s|
    ensures forall i :: 0 <= i < |s| ==> r[i] == UpperChar(s[i])
  {
    seq(|s|, i requires 0 <= i < |s| => UpperChar(s[i]))
  }

  /** Case-insensitive (ASCII) match of `word` at position `p` of `s`, as a regular
      expression with the `i` flag compares letters. */
  predicate MatchesAtCI(s: string, p: nat, word: string) {
    p + |word| <= |s| && forall k {:trigger word[k]} :: 0 <= k < |word| ==> LowerChar(s[p + k]) == LowerChar(word[k])
  }

  /** The decimal digit character of `d`. */
  function DigitChar(d: nat): (c: char)
    requires d < 10
    ensures IsDigit(c)
  {
    "0123456789"[d]
  }

  function DigitValue(c: char): (d: nat)
    requires IsDigit(c)
    ensures d < 10
  {
    c as int - '0' as int
  }

  /** `String(n)` for a non-negative integer: its decimal digits, without leading zeros. */
  function NatToString(n: nat): (r: string)
    ensures |r| >= 1 && AllDigits(r)
    ensures |r| > 1 ==> r[0] != '0'
    decreases n
  {
    if n < 10 then [DigitChar(n)] else NatToString(n / 10) + [DigitChar(n % 10)]
  }

  /** `parseInt(s)` of a string of decimal digits. */
  function DigitsToNat(s: string): nat
    requires AllDigits(s)
  {
    if |s| == 0 then 0 else DigitsToNat(s[..|s| - 1]) * 10 + DigitValue(s[|s| - 1])
  }

  /** Decimal rendering and parsing are inverse. */
  lemma {:induction false} NatToStringRoundTrip(n: nat)
    ensures DigitsToNat(NatToString(n)) == n
    decreases n
  {
    var r := NatToString(n);
    if n < 10 {
      assert r[..0] == [];
    } else {
      NatToStringRoundTrip(n / 10);
      assert r[..|r| - 1] == NatToString(n / 10);
      assert DigitValue(DigitChar(n % 10)) == n % 10;
    }
  }
}
