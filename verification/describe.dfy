/** The setup page (`SetupBuilderPage.tsx`): the sentence a structured setup is turned into
    before it is sent for analysis, and the guards in front of analysing and saving. Numbers
    are rendered by `fmt`, the runtime's number-to-string conversion. */
module Describe {
  import opened Wrappers
  import opened SetupForm
  import Text

  /** The opening every description has. */
  function Head(s: TankSetup, fmt: real -> string): string {
    fmt(s.volume) + "-gallon saltwater reef tank with " + s.lighting + " lighting"
  }

  /** A clause that is written only when it has items: `lead` followed by the items joined
      with `sep`, then `tail`. */
  function Clause(lead: string, items: seq<string>, sep: string, tail: string): (r: string)
    requires lead != []
    ensures r == [] <==> items == []
    ensures items != [] ==> Text.IsPrefix(lead, r)
  {
    if |items| == 0 then [] else lead + Text.Join(items, sep) + tail
  }

  /** The equipment names, in the fixed order protein skimmer, heater, wavemaker. */
  function Equipment(s: TankSetup): (r: seq<string>)
    ensures "protein skimmer" in r <==> s.hasProteinSkimmer
    ensures "heater" in r <==> s.hasHeater
    ensures "wavemaker" in r <==> s.hasWavemaker
    ensures r == [] <==> !(s.hasProteinSkimmer || s.hasHeater || s.hasWavemaker)
    ensures Catalogue.Distinct(r) && forall i :: 0 <= i < |r| ==> r[i] != []
    ensures s.hasProteinSkimmer ==> r[0] == "protein skimmer"
    ensures s.hasWavemaker ==> r[|r| - 1] == "wavemaker"
  {
    (if s.hasProteinSkimmer then ["protein skimmer"] else [])
    + (if s.hasHeater then ["heater"] else [])
    + (if s.hasWavemaker then ["wavemaker"] else [])
  }

  /** `${quantity}x ${species}` for each entry, in list order. */
  function EntryTexts(entries: seq<Entry>, fmt: real -> string): (r: seq<string>)
    ensures |r| == |entries|
    ensures forall i :: 0 <= i < |entries| ==> r[i] == fmt(entries[i].quantity) + "x " + entries[i].species
  {
    seq(|entries|, i requires 0 <= i < |entries| => fmt(entries[i].quantity) + "x " + entries[i].species)
  }

  /** The water readings that are entered and non-zero, in the order pH, salinity, temperature.
      The temperature is written with a Fahrenheit sign whatever unit it is stored in. */
  function WaterTexts(w: WaterParams, fmt: real -> string): (r: seq<string>)
    ensures |r| == (if Entered(w.ph) then 1 else 0) + (if Entered(w.salinity) then 1 else 0)
                   + (if Entered(w.temperature) then 1 else 0)
    ensures Entered(w.ph) ==> r[0] == "pH " + fmt(w.ph.value)
    ensures Entered(w.salinity) ==> r[if Entered(w.ph) then 1 else 0] == "salinity " + fmt(w.salinity.value)
    ensures Entered(w.temperature) ==> r[|r| - 1] == "temperature " + fmt(w.temperature.value) + "°F"
  {
    (if Entered(w.ph) then ["pH " + fmt(w.ph.value)] else [])
    + (if Entered(w.salinity) then ["salinity " + fmt(w.salinity.value)] else [])
    + (if Entered(w.temperature) then ["temperature " + fmt(w.temperature.value) + "°F"] else [])
  }

  /** The setup has nothing beyond volume and lighting to describe. */
  predicate Bare(s: TankSetup) {
    s.filtration == [] && !(s.hasProteinSkimmer || s.hasHeater || s.hasWavemaker)
    && s.fish == [] && s.corals == []
    && !(Entered(s.waterParams.ph) || Entered(s.waterParams.salinity) || Entered(s.waterParams.temperature))
  }

  /** Everything after the opening: the filtration, equipment, fish, coral and water clauses in
      that order, each present exactly when it has something to list. */
  function Clauses(s: TankSetup, fmt: real -> string): (r: string)
    ensures r == [] <==> Bare(s)
  {
    ClausesPresent(s, fmt);
    var c := ClauseParts(s, fmt);
    assert Bare(s) <==> !HasItems(s, 0) && !HasItems(s, 1) && !HasItems(s, 2) && !HasItems(s, 3) && !HasItems(s, 4);
    c[0] + c[1] + c[2] + c[3] + c[4]
  }

  /** `convertSetupToDescription`. It always opens with the volume and lighting, and is that
      opening alone exactly when nothing else is set. */
  function Description(s: TankSetup, fmt: real -> string): (r: string)
    ensures Text.IsPrefix(Head(s, fmt), r)
    ensures r == Head(s, fmt) <==> Bare(s)
  {
    Head(s, fmt) + Clauses(s, fmt)
  }

  /** The five clauses after the opening, in the order the page appends them: filtration,
      equipment, fish, corals, water parameters. */
  function ClauseParts(s: TankSetup, fmt: real -> string): seq<string> {
    [Clause(", ", s.filtration, " and ", " filtration"),
     Clause(", equipped with ", Equipment(s), ", ", ""),
     Clause(". Fish: ", EntryTexts(s.fish, fmt), ", ", ""),
     Clause(". Corals: ", EntryTexts(s.corals, fmt), ", ", ""),
     Clause(". Water parameters: ", WaterTexts(s.waterParams, fmt), ", ", "")]
  }

  /** The text each clause starts with. */
  const Leads: seq<string> := [", ", ", equipped with ", ". Fish: ", ". Corals: ", ". Water parameters: "]

  /** Whether the setup has something for clause `i` to list. */
  predicate HasItems(s: TankSetup, i: nat)
    requires i < 5
  {
    if i == 0 then s.filtration != []
    else if i == 1 then s.hasProteinSkimmer || s.hasHeater || s.hasWavemaker
    else if i == 2 then s.fish != []
    else if i == 3 then s.corals != []
    else Entered(s.waterParams.ph) || Entered(s.waterParams.salinity) || Entered(s.waterParams.temperature)
  }

  /** Where piece `i` of `c` starts when the pieces are written one after the other from
      position `h`. */
  function PieceStart(h: nat, c: seq<string>, i: nat): nat
    requires i <= |c|
  {
    if i == 0 then h else PieceStart(h, c, i - 1) + |c[i - 1]|
  }

  /** Where clause `i` starts in the description: after the opening and the clauses before it. */
  function ClauseStart(s: TankSetup, fmt: real -> string, i: nat): nat
    requires i <= 5
  {
    PieceStart(|Head(s, fmt)|, ClauseParts(s, fmt), i)
  }

  /** The description is the opening followed by the five clauses, one after the other in
      the page's order and with nothing in between. A clause is written exactly when the setup
      has something for it, and then starts with its lead; the fish and coral clauses list
      the `{quantity}x {species}` texts joined by commas. */
  lemma DescriptionLayout(s: TankSetup, fmt: real -> string)
    ensures forall i :: 0 <= i < 5 ==> (ClauseParts(s, fmt)[i] != [] <==> HasItems(s, i))
    ensures forall i :: 0 <= i < 5 && HasItems(s, i) ==> Text.IsPrefix(Leads[i], ClauseParts(s, fmt)[i])
    ensures s.fish != [] ==> ClauseParts(s, fmt)[2] == ". Fish: " + Text.Join(EntryTexts(s.fish, fmt), ", ")
    ensures s.corals != [] ==> ClauseParts(s, fmt)[3] == ". Corals: " + Text.Join(EntryTexts(s.corals, fmt), ", ")
    ensures forall i :: 0 <= i < 5 ==> Text.OccursAt(Description(s, fmt), ClauseParts(s, fmt)[i], ClauseStart(s, fmt, i))
    ensures ClauseStart(s, fmt, 5) == |Description(s, fmt)|
  {
    ClausesPresent(s, fmt);
    ClausePositions(s, fmt);
  }

  /** Each clause sits in the description where the opening and the earlier clauses end. */
  lemma ClausePositions(s: TankSetup, fmt: real -> string)
    ensures forall i :: 0 <= i < 5 ==> Text.OccursAt(Description(s, fmt), ClauseParts(s, fmt)[i], ClauseStart(s, fmt, i))
    ensures ClauseStart(s, fmt, 5) == |Description(s, fmt)|
  {
    DescriptionParts(s, fmt);
    FivePieces(Head(s, fmt), ClauseParts(s, fmt));
  }

  /** The description is the opening followed by the five clauses. */
  lemma DescriptionParts(s: TankSetup, fmt: real -> string)
    ensures var c := ClauseParts(s, fmt);
            Description(s, fmt) == Head(s, fmt) + (c[0] + c[1] + c[2] + c[3] + c[4])
  {
    var c := ClauseParts(s, fmt);
    assert Clauses(s, fmt) == c[0] + c[1] + c[2] + c[3] + c[4];
  }

  /** Each clause is written exactly when there is something for it, and starts with its lead. */
  lemma ClausesPresent(s: TankSetup, fmt: real -> string)
    ensures forall i :: 0 <= i < 5 ==> (ClauseParts(s, fmt)[i] != [] <==> HasItems(s, i))
    ensures forall i :: 0 <= i < 5 && HasItems(s, i) ==> Text.IsPrefix(Leads[i], ClauseParts(s, fmt)[i])
    ensures s.fish != [] ==> ClauseParts(s, fmt)[2] == ". Fish: " + Text.Join(EntryTexts(s.fish, fmt), ", ")
    ensures s.corals != [] ==> ClauseParts(s, fmt)[3] == ". Corals: " + Text.Join(EntryTexts(s.corals, fmt), ", ")
  {
    forall i | 0 <= i < 5
      ensures ClauseParts(s, fmt)[i] != [] <==> HasItems(s, i)
      ensures HasItems(s, i) ==> Text.IsPrefix(Leads[i], ClauseParts(s, fmt)[i])
    {
      ClauseAt(s, fmt, i);
    }
    var c := ClauseParts(s, fmt);
    if s.fish != [] {
      assert c[2] == ". Fish: " + Text.Join(EntryTexts(s.fish, fmt), ", ") + "";
    }
    if s.corals != [] {
      assert c[3] == ". Corals: " + Text.Join(EntryTexts(s.corals, fmt), ", ") + "";
    }
  }

  /** Clause `i` is written exactly when the setup has something for it, and then starts with
      lead `i`. */
  lemma {:induction false} ClauseAt(s: TankSetup, fmt: real -> string, i: nat)
    requires i < 5
    ensures ClauseParts(s, fmt)[i] != [] <==> HasItems(s, i)
    ensures HasItems(s, i) ==> Text.IsPrefix(Leads[i], ClauseParts(s, fmt)[i])
  {
    if i == 0 {
      FiltrationClause(s, fmt);
    } else if i == 1 {
      EquipmentClause(s, fmt);
    } else if i == 2 {
      FishClause(s, fmt);
    } else if i == 3 {
      CoralClause(s, fmt);
    } else {
      WaterClause(s, fmt);
    }
  }

  lemma FiltrationClause(s: TankSetup, fmt: real -> string)
    ensures ClauseParts(s, fmt)[0] != [] <==> HasItems(s, 0)
    ensures HasItems(s, 0) ==> Text.IsPrefix(Leads[0], ClauseParts(s, fmt)[0])
  {
    assert ClauseParts(s, fmt)[0] == Clause(", ", s.filtration, " and ", " filtration");
  }

  lemma EquipmentClause(s: TankSetup, fmt: real -> string)
    ensures ClauseParts(s, fmt)[1] != [] <==> HasItems(s, 1)
    ensures HasItems(s, 1) ==> Text.IsPrefix(Leads[1], ClauseParts(s, fmt)[1])
  {
    assert ClauseParts(s, fmt)[1] == Clause(", equipped with ", Equipment(s), ", ", "");
  }

  lemma FishClause(s: TankSetup, fmt: real -> string)
    ensures ClauseParts(s, fmt)[2] != [] <==> HasItems(s, 2)
    ensures HasItems(s, 2) ==> Text.IsPrefix(Leads[2], ClauseParts(s, fmt)[2])
  {
    var fish := EntryTexts(s.fish, fmt);
    assert ClauseParts(s, fmt)[2] == Clause(". Fish: ", fish, ", ", "");
    assert fish == [] <==> s.fish == [] by { assert |fish| == |s.fish|; }
  }

  lemma CoralClause(s: TankSetup, fmt: real -> string)
    ensures ClauseParts(s, fmt)[3] != [] <==> HasItems(s, 3)
    ensures HasItems(s, 3) ==> Text.IsPrefix(Leads[3], ClauseParts(s, fmt)[3])
  {
    var corals := EntryTexts(s.corals, fmt);
    assert ClauseParts(s, fmt)[3] == Clause(". Corals: ", corals, ", ", "");
    assert corals == [] <==> s.corals == [] by { assert |corals| == |s.corals|; }
  }

  lemma WaterClause(s: TankSetup, fmt: real -> string)
    ensures ClauseParts(s, fmt)[4] != [] <==> HasItems(s, 4)
    ensures HasItems(s, 4) ==> Text.IsPrefix(Leads[4], ClauseParts(s, fmt)[4])
  {
    var water := WaterTexts(s.waterParams, fmt);
    assert ClauseParts(s, fmt)[4] == Clause(". Water parameters: ", water, ", ", "");
    assert water == [] <==> !HasItems(s, 4);
  }

  /** The first `i` pieces of `c` written one after the other. */
  function Upto(c: seq<string>, i: nat): string
    requires i <= |c|
  {
    if i == 0 then [] else Upto(c, i - 1) + c[i - 1]
  }

  /** Piece `i` sits in every longer run of pieces where the pieces before it end. */
  lemma {:induction false} UptoHolds(c: seq<string>, i: nat, j: nat)
    requires i < j <= |c|
    ensures Text.OccursAt(Upto(c, j), c[i], |Upto(c, i)|)
    decreases j
  {
    var k := |Upto(c, i)|;
    if j == i + 1 {
      assert Upto(c, j)[k..k + |c[i]|] == c[i];
    } else {
      UptoHolds(c, i, j - 1);
      var p := Upto(c, j - 1);
      assert Upto(c, j)[k..k + |c[i]|] == p[k..k + |c[i]|];
    }
  }

  /** `PieceStart` counts the length of the pieces before. */
  lemma {:induction false} PieceStartUpto(h: nat, c: seq<string>, i: nat)
    requires i <= |c|
    ensures PieceStart(h, c, i) == h + |Upto(c, i)|
  {
    if i > 0 {
      PieceStartUpto(h, c, i - 1);
    }
  }

  /** Piece `i` of a run written after `h` starts at `PieceStart`. */
  lemma {:induction false} PieceIn(h: string, c: seq<string>, i: nat, n: nat)
    requires i < n <= |c|
    ensures Text.OccursAt(h + Upto(c, n), c[i], PieceStart(|h|, c, i))
  {
    UptoHolds(c, i, n);
    PieceStartUpto(|h|, c, i);
    OccursShifted(h, Upto(c, n), c[i], |Upto(c, i)|);
  }

  /** Writing `h` in front moves every occurrence by `|h|`. */
  lemma OccursShifted(h: string, u: string, x: string, k: nat)
    requires Text.OccursAt(u, x, k)
    ensures Text.OccursAt(h + u, x, |h| + k)
  {
    assert (h + u)[|h| + k..|h| + k + |x|] == u[k..k + |x|];
  }

  /** Five pieces in a row are `Upto` five. */
  lemma UptoFive(c: seq<string>)
    requires |c| == 5
    ensures Upto(c, 5) == c[0] + c[1] + c[2] + c[3] + c[4]
  {
    assert Upto(c, 1) == [] + c[0] == c[0];
    assert Upto(c, 2) == c[0] + c[1];
    assert Upto(c, 3) == c[0] + c[1] + c[2];
    assert Upto(c, 4) == c[0] + c[1] + c[2] + c[3];
  }

  /** Five pieces written one after the other after `h` each occur where the pieces before
      them end. */
  lemma {:induction false} FivePieces(h: string, c: seq<string>)
    requires |c| == 5
    ensures var d := h + (c[0] + c[1] + c[2] + c[3] + c[4]);
            && (forall i :: 0 <= i < 5 ==> Text.OccursAt(d, c[i], PieceStart(|h|, c, i)))
            && PieceStart(|h|, c, 5) == |d|
  {
    UptoFive(c);
    forall i | 0 <= i < 5
      ensures Text.OccursAt(h + Upto(c, 5), c[i], PieceStart(|h|, c, i))
    {
      PieceIn(h, c, i, 5);
    }
    PieceStartUpto(|h|, c, 5);
  }

  /** With both lists non-empty, the fish clause comes before the coral clause. */
  lemma FishBeforeCorals(s: TankSetup, fmt: real -> string)
    requires s.fish != [] && s.corals != []
    ensures exists i, j :: i < j && Text.OccursAt(Description(s, fmt), ". Fish: ", i)
                           && Text.OccursAt(Description(s, fmt), ". Corals: ", j)
  {
    var c1 := Clause(", ", s.filtration, " and ", " filtration");
    var c2 := Clause(", equipped with ", Equipment(s), ", ", "");
    var c3 := Clause(". Fish: ", EntryTexts(s.fish, fmt), ", ", "");
    var c4 := Clause(". Corals: ", EntryTexts(s.corals, fmt), ", ", "");
    var c5 := Clause(". Water parameters: ", WaterTexts(s.waterParams, fmt), ", ", "");
    var p := Head(s, fmt) + c1 + c2;
    var tail := Clauses(s, fmt);
    assert tail == c1 + c2 + c3 + c4 + c5;
    assert Description(s, fmt) == Head(s, fmt) + tail;
    Regroup(Head(s, fmt), c1, c2, c3, c4, c5);
    OccursInMiddle(p, c3, c4 + c5, ". Fish: ");
    OccursInMiddle(p + c3, c4, c5, ". Corals: ");
    assert |p| < |p + c3|;
  }

  lemma Regroup(h: string, c1: string, c2: string, c3: string, c4: string, c5: string)
    ensures h + (c1 + c2 + c3 + c4 + c5) == (h + c1 + c2) + c3 + (c4 + c5)
    ensures h + (c1 + c2 + c3 + c4 + c5) == (h + c1 + c2 + c3) + c4 + c5
  {
  }

  lemma OccursInMiddle(a: string, b: string, c: string, sub: string)
    requires Text.IsPrefix(sub, b)
    ensures Text.OccursAt(a + b + c, sub, |a|)
  {
    assert (a + b + c)[|a|..|a| + |sub|] == b[..|sub|];
  }

  /** A temperature entered in Fahrenheit is described with a Fahrenheit sign but with the
      Celsius number the form stored, so the two numbers differ (except at -40). */
  lemma TemperatureDescribedUnconverted(s: TankSetup, text: string, parseFloat: string -> Option<real>, fmt: real -> string)
    requires parseFloat(text).Some? && parseFloat(text).value != 32.0
    ensures var t := SetTemperature(s, Imperial, text, parseFloat);
            var c := Celsius(Imperial, text, parseFloat);
            WaterTexts(t.waterParams, fmt)[|WaterTexts(t.waterParams, fmt)| - 1] == "temperature " + fmt(c) + "°F"
            && (parseFloat(text).value != -40.0 ==> c != parseFloat(text).value)
  {
  }

  /** The tabs of the setup page: the form (0), the free-text description (1) and the list of
      saved setups (2). */
  type Tab = int

  datatype AnalyzeRequest = Rejected(message: string) | Send(description: string)

  const NeedLivestock := "Please configure your tank " + "setup with at least one fish " + "or coral."
  const NeedDescription := "Please enter a tank " + "description first."

  /** `handleAnalyze`: on the form tab a setup with at least one fish or coral is described;
      on any other tab the typed text is sent as it is (not trimmed), provided it is not
      blank. */
  function Analyze(tab: Tab, setup: Option<TankSetup>, text: string, fmt: real -> string): (r: AnalyzeRequest)
    ensures tab == 0 ==> (r == Rejected(NeedLivestock) <==> setup.None? || (setup.value.fish == [] && setup.value.corals == []))
    ensures tab == 0 && r.Send? ==> r.description == Description(setup.value, fmt)
    ensures tab != 0 ==> (r == Rejected(NeedDescription) <==> Text.Blank(text))
    ensures tab != 0 && r.Send? ==> r.description == text
  {
    Text.TrimEmptyIffBlank(text);
    if tab == 0 then
      if setup.None? || (setup.value.fish == [] && setup.value.corals == []) then Rejected(NeedLivestock)
      else Send(Description(setup.value, fmt))
    else if Text.Trim(text) == [] then Rejected(NeedDescription)
    else Send(text)
  }

  /** `confirmSaveSetup`: nothing happens without a pending setup or with a blank name;
      otherwise the setup is saved under the trimmed name. */
  function ConfirmSave(pending: Option<TankSetup>, name: string): (r: Option<(TankSetup, string)>)
    ensures r.None? <==> pending.None? || Text.Blank(name)
    ensures r.Some? ==> r.value.0 == pending.value && r.value.1 == Text.Trim(name) && r.value.1 != []
  {
    Text.TrimEmptyIffBlank(name);
    if pending.None? || Text.Trim(name) == [] then None else Some((pending.value, Text.Trim(name)))
  }
}
