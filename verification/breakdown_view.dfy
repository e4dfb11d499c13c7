/** The breakdown cards of an analysis (`AnalysisBreakdown.tsx`): four sections in a fixed
    order, of which only those with truthy content are shown. */
module BreakdownView {
  import opened Wrappers
  import opened Json
  import Analysis

  /** A section of the card list: the breakdown key it shows, its title and colour, and the
      content read from the breakdown (`undefined` as `None`). */
  datatype Section = Section(key: string, title: string, colour: string, content: Option<Json>)

  const Titles: seq<string> := ["Equipment Assessment", "Water Parameters", "Livestock Compatibility", "Recommendations"]
  const Colours: seq<string> := ["#1976d2", "#2196f3", "#26a69a", "#ff9800"]
  const NoBreakdown := "No detailed breakdown " + "available."

  /** The position of a breakdown key in the fixed order; 4 for any other key. */
  function Rank(key: string): (n: nat)
    ensures n <= 4
    ensures n < 4 ==> Analysis.BreakdownKeys[n] == key
    ensures forall i :: 0 <= i < 4 && Analysis.BreakdownKeys[i] == key ==> n == i
  {
    if key == "equipment" then 0
    else if key == "waterParams" then 1
    else if key == "livestock" then 2
    else if key == "recommendations" then 3
    else 4
  }

  /** The keys of the sections strictly follow the fixed order. */
  predicate Ordered(ss: seq<Section>) {
    forall i, j :: 0 <= i < j < |ss| ==> Rank(ss[i].key) < Rank(ss[j].key)
  }

  /** The `sections` table: the four breakdown fields under their titles, in the order
      equipment, water parameters, livestock, recommendations. */
  function Sections(breakdown: Json): (r: seq<Section>)
    ensures |r| == 4 && Ordered(r)
    ensures forall i :: 0 <= i < 4 ==>
              r[i].key == Analysis.BreakdownKeys[i] && r[i].title == Titles[i]
              && r[i].content == Member(breakdown, r[i].key)
  {
    seq(4, i requires 0 <= i < 4 =>
      Section(Analysis.BreakdownKeys[i], Titles[i], Colours[i], Member(breakdown, Analysis.BreakdownKeys[i])))
  }

  /** `sections.filter(section => section.content)`: the sections with truthy content, in
      their order. */
  function Available(ss: seq<Section>): (r: seq<Section>)
    ensures |r| <= |ss|
    ensures forall s :: s in r <==> s in ss && Present(s.content)
  {
    if |ss| == 0 then []
    else
      var rest := Available(ss[1..]);
      assert ss == [ss[0]] + ss[1..];
      if Present(ss[0].content) then [ss[0]] + rest else rest
  }

  /** Filtering keeps the fixed order. */
  lemma {:induction false} AvailableOrdered(ss: seq<Section>)
    requires Ordered(ss)
    ensures Ordered(Available(ss))
  {
    if |ss| > 0 {
      OrderedTail(ss);
      AvailableOrdered(ss[1..]);
      if Present(ss[0].content) {
        OrderedCons(ss[0], Available(ss[1..]));
      }
    }
  }

  /** The tail of an ordered list is ordered and follows its head. */
  lemma OrderedTail(ss: seq<Section>)
    requires |ss| > 0 && Ordered(ss)
    ensures Ordered(ss[1..])
    ensures forall s :: s in ss[1..] ==> Rank(ss[0].key) < Rank(s.key)
  {
    var tail := ss[1..];
    forall i, j | 0 <= i < j < |tail| ensures Rank(tail[i].key) < Rank(tail[j].key) {
      assert tail[i] == ss[i + 1] && tail[j] == ss[j + 1];
    }
    forall s | s in tail ensures Rank(ss[0].key) < Rank(s.key) {
      var k :| 0 <= k < |tail| && tail[k] == s;
      assert ss[k + 1] == s;
    }
  }

  /** A section ranked before every section of an ordered list can be put in front of it. */
  lemma OrderedCons(x: Section, rest: seq<Section>)
    requires Ordered(rest) && forall s :: s in rest ==> Rank(x.key) < Rank(s.key)
    ensures Ordered([x] + rest)
  {
    var r := [x] + rest;
    forall i, j | 0 <= i < j < |r| ensures Rank(r[i].key) < Rank(r[j].key) {
      assert r[j] == rest[j - 1];
      if i > 0 {
        assert r[i] == rest[i - 1];
      }
    }
  }

  /** What the component renders: the fallback sentence, or the cards. */
  datatype View = NothingToShow(message: string) | Cards(cards: seq<Section>)

  /** `AnalysisBreakdownComponent`. The breakdown is an object, as its type demands. A card is
      shown for a key exactly when that field is truthy, under that key's title and with that
      field as its text, and the cards keep the fixed order. */
  function Render(breakdown: Json): (r: View)
    ensures r.NothingToShow? <==> forall i :: 0 <= i < 4 ==> !Present(Member(breakdown, Analysis.BreakdownKeys[i]))
    ensures r.NothingToShow? ==> r.message == NoBreakdown
    ensures r.Cards? ==> Ordered(r.cards) && 0 < |r.cards| <= 4
    ensures r.Cards? ==> forall i :: 0 <= i < 4 ==>
              (Present(Member(breakdown, Analysis.BreakdownKeys[i]))
               <==> Section(Analysis.BreakdownKeys[i], Titles[i], Colours[i], Member(breakdown, Analysis.BreakdownKeys[i])) in r.cards)
    ensures r.Cards? ==> forall c :: c in r.cards ==>
              Rank(c.key) < 4 && c.title == Titles[Rank(c.key)] && c.content == Member(breakdown, c.key)
              && Present(c.content)
  {
    ShownSections(breakdown);
    var shown := Available(Sections(breakdown));
    if |shown| == 0 then
      NothingToShow(NoBreakdown)
    else
      assert shown[0] in shown;
      assert Present(Member(breakdown, Analysis.BreakdownKeys[Rank(shown[0].key)]));
      Cards(shown)
  }

  /** The sections with truthy content: in the fixed order, one per truthy field, each under
      its key's title with that field as its content. */
  lemma ShownSections(breakdown: Json)
    ensures var shown := Available(Sections(breakdown));
            && Ordered(shown) && |shown| <= 4
            && (forall i :: 0 <= i < 4 ==>
                  (Present(Member(breakdown, Analysis.BreakdownKeys[i]))
                   <==> Section(Analysis.BreakdownKeys[i], Titles[i], Colours[i], Member(breakdown, Analysis.BreakdownKeys[i])) in shown))
            && (forall c :: c in shown ==>
                  Rank(c.key) < 4 && c.title == Titles[Rank(c.key)] && c.content == Member(breakdown, c.key)
                  && Present(c.content))
  {
    var ss := Sections(breakdown);
    var shown := Available(ss);
    AvailableOrdered(ss);
    forall i | 0 <= i < 4
      ensures ss[i] == Section(Analysis.BreakdownKeys[i], Titles[i], Colours[i], Member(breakdown, Analysis.BreakdownKeys[i]))
    {
    }
    forall c | c in shown
      ensures Rank(c.key) < 4 && c.title == Titles[Rank(c.key)] && c.content == Member(breakdown, c.key)
    {
      var k :| 0 <= k < 4 && ss[k] == c;
    }
  }

  /** The cards and the summary the analysis functions build agree: the fallback sentence is
      shown exactly when the summary is empty, and a card is shown exactly when the summary
      has an entry for that field. */
  lemma RenderMatchesSummary(breakdown: Json, fmt: real -> string, i: nat)
    requires i < 4
    ensures Render(breakdown).NothingToShow? <==> Analysis.FormatSummary(breakdown, fmt) == []
    ensures Render(breakdown).Cards? ==>
              ((exists c :: c in Render(breakdown).cards && c.key == Analysis.BreakdownKeys[i])
               <==> Analysis.SummaryEntry(breakdown, i, fmt) != [])
  {
    Analysis.SummaryEmptyIff(breakdown, fmt);
    Analysis.SummaryEntryIff(breakdown, i, fmt);
    var r := Render(breakdown);
    if r.Cards? && Present(Member(breakdown, Analysis.BreakdownKeys[i])) {
      var key := Analysis.BreakdownKeys[i];
      assert Section(key, Titles[i], Colours[i], Member(breakdown, key)) in r.cards;
    }
  }
}
