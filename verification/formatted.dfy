/** The rendering of a free-text analysis (`FormattedResponse.tsx`): the text is cut into
    sections at blank lines, each section into lines, and every line is shown as a header, a
    bullet or a plain paragraph, decided on the trimmed line. */
module Formatted {
  import opened Text

  /** `xs.filter(x => x.trim())`: the parts that are not blank, in their order. */
  function KeepNonBlank(xs: seq<string>): (r: seq<string>)
    ensures |r| <= |xs|
    ensures forall k :: 0 <= k < |r| ==> !Blank(r[k]) && r[k] in xs
    ensures forall x :: x in xs && !Blank(x) ==> x in r
  {
    if |xs| == 0 then []
    else
      var rest := KeepNonBlank(xs[1..]);
      assert forall x :: x in xs[1..] ==> x in xs;
      if !Blank(xs[0]) then [xs[0]] + rest else rest
  }

  /** Filtering keeps order and multiplicity: it distributes over concatenation. With
      `KeepNonBlankOne` this pins the filter down. */
  lemma {:induction false} KeepNonBlankAppend(a: seq<string>, b: seq<string>)
    ensures KeepNonBlank(a + b) == KeepNonBlank(a) + KeepNonBlank(b)
    decreases |a|
  {
    if |a| > 0 {
      assert (a + b)[1..] == a[1..] + b;
      KeepNonBlankAppend(a[1..], b);
      assert (a + b)[0] == a[0];
    } else {
      assert a + b == b;
    }
  }

  /** A single part is kept exactly when it is not blank. */
  lemma KeepNonBlankOne(x: string)
    ensures KeepNonBlank([x]) == if Blank(x) then [] else [x]
  {
    assert [x][1..] == [];
  }

  /** `text.split('\n\n').filter(section => section.trim())`. */
  function Sections(text: string): seq<string> {
    KeepNonBlank(Split(text, "\n\n"))
  }

  /** `section.split('\n').filter(line => line.trim())`. */
  function Lines(section: string): seq<string> {
    KeepNonBlank(Split(section, "\n"))
  }

  predicate IsUpper(c: char) {
    'A' <= c <= 'Z'
  }

  /** `/^[A-Z][^:]*:$/`: a capital letter, then anything without a colon, then a final colon. */
  predicate ColonHeader(t: string) {
    |t| >= 2 && IsUpper(t[0]) && t[|t| - 1] == ':' && forall i :: 1 <= i < |t| - 1 ==> t[i] != ':'
  }

  /** `/^[A-Z\s]{3,}$/`: at least three characters, each a capital letter or white space. */
  predicate CapsHeader(t: string) {
    |t| >= 3 && forall i :: 0 <= i < |t| ==> IsUpper(t[i]) || IsSpace(t[i])
  }

  /** The header test on a trimmed line. */
  predicate IsHeader(t: string) {
    || ColonHeader(t)
    || CapsHeader(t)
    || Contains(t, "Assessment")
    || Contains(t, "Recommendations")
    || Contains(t, "Parameters")
    || Contains(t, "Notes")
    || Contains(t, "Steps")
  }

  /** `/^[-•*]\s/`. */
  predicate SymbolPrefix(t: string) {
    |t| >= 2 && (t[0] == '-' || t[0] == '•' || t[0] == '*') && IsSpace(t[1])
  }

  /** The length of the run of digits `t` starts with. */
  function LeadingDigits(t: string): (n: nat)
    ensures n <= |t| && AllDigits(t[..n])
    ensures n < |t| ==> !IsDigit(t[n])
  {
    if |t| == 0 || !IsDigit(t[0]) then 0
    else
      var n := LeadingDigits(t[1..]);
      assert t[..n + 1] == [t[0]] + t[1..][..n];
      n + 1
  }

  /** `/^\d+\.\s/`, with the greedy digit run the regular expression takes. */
  predicate NumberPrefix(t: string) {
    var n := LeadingDigits(t);
    n >= 1 && n + 1 < |t| && t[n] == '.' && IsSpace(t[n + 1])
  }

  /** The greedy reading agrees with the regular expression's: some non-empty run of digits
      is followed by a dot and white space. */
  lemma NumberPrefixIff(t: string)
    ensures NumberPrefix(t) <==> exists k :: 1 <= k && k + 1 < |t| && AllDigits(t[..k]) && t[k] == '.' && IsSpace(t[k + 1])
  {
    var n := LeadingDigits(t);
    if NumberPrefix(t) {
      assert 1 <= n && n + 1 < |t| && AllDigits(t[..n]) && t[n] == '.' && IsSpace(t[n + 1]);
    }
    if exists k :: 1 <= k && k + 1 < |t| && AllDigits(t[..k]) && t[k] == '.' && IsSpace(t[k + 1]) {
      var k :| 1 <= k && k + 1 < |t| && AllDigits(t[..k]) && t[k] == '.' && IsSpace(t[k + 1]);
      DigitRunEnds(t, k);
    }
  }

  /** A run of `k` digits followed by a character that is not a digit is the leading run. */
  lemma DigitRunEnds(t: string, k: nat)
    requires k < |t| && AllDigits(t[..k]) && !IsDigit(t[k])
    ensures LeadingDigits(t) == k
  {
    var n := LeadingDigits(t);
    assert forall j :: 0 <= j < n ==> IsDigit(t[j]) by {
      forall j | 0 <= j < n ensures IsDigit(t[j]) {
        assert t[..n][j] == t[j];
      }
    }
    assert forall j :: 0 <= j < k ==> IsDigit(t[j]) by {
      forall j | 0 <= j < k ensures IsDigit(t[j]) {
        assert t[..k][j] == t[j];
      }
    }
  }

  /** The bullet test on a trimmed line. */
  predicate IsBullet(t: string) {
    SymbolPrefix(t) || NumberPrefix(t)
  }

  /** `t.replace(/^[-•*]\s/, '').replace(/^\d+\.\s/, '')`: at most one symbol prefix, then at
      most one number prefix, is removed. */
  function BulletText(t: string): (r: string)
    ensures IsSuffix(r, t)
    ensures !IsBullet(t) ==> r == t
    ensures SymbolPrefix(t) ==> IsSuffix(r, t[2..])
  {
    var u := if SymbolPrefix(t) then t[2..] else t;
    if NumberPrefix(u) then u[LeadingDigits(u) + 2..] else u
  }

  /** How a line is shown. */
  datatype Line = Header(text: string) | Bullet(text: string) | Plain(text: string)

  /** The classification of one line: the header test wins over the bullet test, headers and
      plain lines show the trimmed line, bullets show it without its markers. A line that is
      not blank never shows as empty. */
  function Classify(line: string): (r: Line)
    ensures r.Header? <==> IsHeader(Trim(line))
    ensures r.Bullet? <==> !IsHeader(Trim(line)) && IsBullet(Trim(line))
    ensures !r.Bullet? ==> r.text == Trim(line)
    ensures r.Bullet? ==> r.text == BulletText(Trim(line))
    ensures !Blank(line) ==> r.text != []
  {
    var t := Trim(line);
    TrimEmptyIffBlank(line);
    if IsHeader(t) then Header(t)
    else if IsBullet(t) then
      BulletNeverEmpty(t);
      Bullet(BulletText(t))
    else Plain(t)
  }

  /** On a trimmed bullet line something is left after the markers, since the markers end in
      white space and the line does not. */
  lemma BulletNeverEmpty(t: string)
    requires t != [] && !IsSpace(t[|t| - 1])
    ensures BulletText(t) != []
  {
    var u := if SymbolPrefix(t) then t[2..] else t;
    assert u != [] && u[|u| - 1] == t[|t| - 1];
    if NumberPrefix(u) {
      assert LeadingDigits(u) + 2 < |u|;
    }
  }

  /** `formatContent`: the sections, each with its classified lines. */
  function Format(text: string): (r: seq<seq<Line>>)
    ensures |r| == |Sections(text)|
    ensures forall i :: 0 <= i < |r| ==> |r[i]| == |Lines(Sections(text)[i])| > 0
    ensures forall i, j :: 0 <= i < |r| && 0 <= j < |r[i]| ==>
              r[i][j] == Classify(Lines(Sections(text)[i])[j]) && r[i][j].text != []
  {
    var sections := Sections(text);
    forall i | 0 <= i < |sections| ensures Lines(sections[i]) != [] {
      NonBlankHasLine(sections[i]);
    }
    seq(|sections|, i requires 0 <= i < |sections| =>
      var lines := Lines(sections[i]);
      seq(|lines|, j requires 0 <= j < |lines| => Classify(lines[j])))
  }

  /** Joining blank parts with a blank separator gives a blank string. */
  lemma {:induction false} JoinBlank(parts: seq<string>, sep: string)
    requires Blank(sep) && forall k :: 0 <= k < |parts| ==> Blank(parts[k])
    ensures Blank(Join(parts, sep))
  {
    if |parts| > 1 {
      JoinBlank(parts[1..], sep);
      var rest := Join(parts[1..], sep);
      var j := parts[0] + sep + rest;
      forall i | 0 <= i < |j| ensures IsSpace(j[i]) {
        if i < |parts[0]| {
          assert j[i] == parts[0][i];
        } else if i < |parts[0]| + |sep| {
          assert j[i] == sep[i - |parts[0]|];
        } else {
          assert j[i] == rest[i - |parts[0]| - |sep|];
        }
      }
    }
  }

  /** A section that is not blank has at least one line that is not blank, so no section is
      shown empty. */
  lemma NonBlankHasLine(section: string)
    requires !Blank(section)
    ensures Lines(section) != []
  {
    var parts := Split(section, "\n");
    SplitJoin(section, "\n");
    if forall k :: 0 <= k < |parts| ==> Blank(parts[k]) {
      JoinBlank(parts, "\n");
    } else {
      var k :| 0 <= k < |parts| && !Blank(parts[k]);
      assert parts[k] in parts;
    }
  }

  /** A string without the separator's first character splits into itself alone. */
  lemma {:induction false} SplitWithoutLead(x: string, sep: string)
    requires |sep| > 0 && sep[0] !in x
    ensures Split(x, sep) == [x]
    decreases |x|
  {
    if |x| >= |sep| {
      assert x[..|sep|] != sep by { assert x[..|sep|][0] == x[0]; }
      SplitWithoutLead(x[1..], sep);
      assert [x[0]] + x[1..] == x;
    }
  }

  /** A single line of text that is not blank is shown as one section holding that one
      line, classified. */
  lemma SingleLine(text: string)
    requires !Blank(text) && '\n' !in text
    ensures Format(text) == [[Classify(text)]]
  {
    SplitWithoutLead(text, "\n\n");
    SplitWithoutLead(text, "\n");
    assert Sections(text) == [text];
    assert Lines(text) == [text];
    var f := Format(text);
    assert |f| == 1 && |f[0]| == 1 && f[0][0] == Classify(text);
    assert f[0] == [Classify(text)];
  }

  /** The header test comes first: a line that mentions "Notes" is a header even when it is
      written as a bullet. */
  lemma HeaderBeatsBullet()
    ensures IsBullet("- Notes") && Classify("- Notes") == Header("- Notes")
  {
    var t := "- Notes";
    assert OccursAt(t, "Notes", 2);
    ContainsIff(t, "Notes");
    TrimKeeps(t);
  }

  /** Only one marker of each kind, symbol first, is removed: a bulleted line whose text is
      numbered loses both markers, but a numbered line whose text starts with a dash keeps
      the dash. */
  lemma MarkersRemovedOnce()
    ensures BulletText("- 1. Feed") == "Feed"
    ensures BulletText("1. - Feed") == "- Feed"
  {
    BothMarkers("Feed");
    assert "- 1. " + "Feed" == "- 1. Feed";
    NumberMarker("- Feed");
    assert "1. " + "- Feed" == "1. - Feed";
  }

  /** A numbered line loses its number. */
  lemma NumberMarker(rest: string)
    ensures BulletText("1. " + rest) == rest
  {
    var t := "1. " + rest;
    assert t[0] == '1' && t[1] == '.' && t[2] == ' ';
    assert !SymbolPrefix(t);
    DigitThenDot(t);
    assert t[3..] == rest;
  }

  /** A dash followed by a number loses both. */
  lemma BothMarkers(rest: string)
    ensures BulletText("- 1. " + rest) == rest
  {
    var t := "- 1. " + rest;
    assert t[0] == '-' && t[1] == ' ';
    assert SymbolPrefix(t);
    var u := t[2..];
    assert u == "1. " + rest;
    assert u[0] == '1' && u[1] == '.' && u[2] == ' ';
    DigitThenDot(u);
    assert u[3..] == rest;
  }

  /** A line opening with one digit and a dot has a one-digit run. */
  lemma DigitThenDot(t: string)
    requires |t| >= 2 && IsDigit(t[0]) && t[1] == '.'
    ensures LeadingDigits(t) == 1
  {
    assert t[1..][0] == '.';
  }

  /** A string that neither starts nor ends with white space is its own trim. */
  lemma TrimKeeps(t: string)
    requires t != [] && !IsSpace(t[0]) && !IsSpace(t[|t| - 1])
    ensures Trim(t) == t
  {
    assert TrimOffset(t) == 0;
    assert |Trim(t)| == |t|;
  }
}
