/** The two lists of saved setups (`MySetupsPage.tsx` and the dialog `SavedSetupsManager.tsx`):
    species names, the chips and the one-line preview shown for a setup, and the guards in front
    of saving, loading and deleting. */
module SetupsView {
  import opened Wrappers
  import opened Catalogue
  import opened SetupForm
  import opened SetupStore
  import Text
  import Describe

  /** `getSpeciesName` of both views: the catalogue name, or the id for an unknown species. */
  function SpeciesLabel(isCoral: bool, id: string): (r: string)
    ensures id !in Ids(if isCoral then CoralSpecies() else FishSpecies()) ==> r == id
  {
    SpeciesName(if isCoral then CoralSpecies() else FishSpecies(), id)
  }

  /** A species of the catalogue is shown by its catalogue name. */
  lemma SpeciesLabelOfListed(isCoral: bool, k: nat)
    requires k < |if isCoral then CoralSpecies() else FishSpecies()|
    requires (if isCoral then CoralSpecies() else FishSpecies())[k].name != []
    ensures SpeciesLabel(isCoral, (if isCoral then CoralSpecies() else FishSpecies())[k].id)
            == (if isCoral then CoralSpecies() else FishSpecies())[k].name
  {
  }

  /** The chips of one list: one `${quantity}x ${name}` chip for each of the first three lines,
      and a `+N more` chip for the rest. */
  datatype Chips = Chips(shown: seq<string>, more: Option<string>)

  function ChipText(l: Line, isCoral: bool, fmt: real -> string): string {
    fmt(l.quantity) + "x " + SpeciesLabel(isCoral, l.speciesId)
  }

  /** The chip section of a list; a list without lines has no section. */
  function ChipsFor(lines: seq<Line>, isCoral: bool, fmt: real -> string): (r: Option<Chips>)
    ensures r.None? <==> lines == []
    ensures r.Some? ==> |r.value.shown| == (if |lines| < 3 then |lines| else 3)
    ensures r.Some? ==> forall i :: 0 <= i < |r.value.shown| ==> r.value.shown[i] == ChipText(lines[i], isCoral, fmt)
    ensures r.Some? ==> (r.value.more.Some? <==> |lines| > 3)
    ensures r.Some? && |lines| > 3 ==> r.value.more == Some("+" + Text.NatToString(|lines| - 3) + " more")
  {
    if |lines| == 0 then None
    else
      var first := if |lines| < 3 then lines else lines[..3];
      Some(Chips(seq(|first|, i requires 0 <= i < |first| => ChipText(first[i], isCoral, fmt)),
                 if |lines| > 3 then Some("+" + Text.NatToString(|lines| - 3) + " more") else None))
  }

  /** Every line is accounted for: the shown chips and the number in the `+N more` chip add up
      to the length of the list. */
  lemma ChipsCountAll(lines: seq<Line>, isCoral: bool, fmt: real -> string)
    requires lines != []
    ensures var c := ChipsFor(lines, isCoral, fmt).value;
            |c.shown| + (if c.more.Some? then Text.DigitsToNat(c.more.value[1..|c.more.value| - 5]) else 0) == |lines|
  {
    var c := ChipsFor(lines, isCoral, fmt).value;
    if |lines| > 3 {
      var d := Text.NatToString(|lines| - 3);
      assert c.more.value == "+" + d + " more";
      assert c.more.value[1..|c.more.value| - 5] == d;
      Text.NatToStringRoundTrip(|lines| - 3);
    }
  }

  /** `formatSetupPreview`: `${volume}gal • ${fish} fish • ${corals} corals • ${lighting}`. */
  function Preview(saved: SavedSetup, fmt: real -> string): (r: string)
    ensures Text.IsPrefix(fmt(saved.row.volume) + "gal • ", r)
    ensures Text.IsSuffix(" corals • " + saved.row.lighting, r)
  {
    fmt(saved.row.volume) + "gal • "
    + (Text.NatToString(|saved.fish|) + (" fish • " + (Text.NatToString(|saved.corals|) + (" corals • " + saved.row.lighting))))
  }

  /** The preview shows counts, not species: two setups with the same volume and lighting have
      the same preview exactly when they have as many fish lines and as many coral lines. */
  lemma {:induction false} PreviewShowsCounts(a: SavedSetup, b: SavedSetup, fmt: real -> string)
    requires a.row.volume == b.row.volume && a.row.lighting == b.row.lighting
    ensures Preview(a, fmt) == Preview(b, fmt) <==> |a.fish| == |b.fish| && |a.corals| == |b.corals|
  {
    var p := fmt(a.row.volume) + "gal • ";
    var l := a.row.lighting;
    var fa, fb := Text.NatToString(|a.fish|), Text.NatToString(|b.fish|);
    var ca, cb := Text.NatToString(|a.corals|), Text.NatToString(|b.corals|);
    var ta := " fish • " + (ca + (" corals • " + l));
    var tb := " fish • " + (cb + (" corals • " + l));
    if Preview(a, fmt) == Preview(b, fmt) {
      assert fa + ta == (p + (fa + ta))[|p|..] == (p + (fb + tb))[|p|..] == fb + tb;
      if fa != fb {
        DigitsThenOtherDiffer(fa, fb, ta, tb);
      }
      Text.NatToStringRoundTrip(|a.fish|);
      Text.NatToStringRoundTrip(|b.fish|);
      assert ta == (fa + ta)[|fa|..] == (fb + tb)[|fb|..] == tb;
      var ra := ca + (" corals • " + l);
      var rb := cb + (" corals • " + l);
      assert ra == ta[8..] == tb[8..] == rb;
      if ca != cb {
        DigitsThenOtherDiffer(ca, cb, " corals • " + l, " corals • " + l);
      }
      Text.NatToStringRoundTrip(|a.corals|);
      Text.NatToStringRoundTrip(|b.corals|);
    }
  }

  /** Two different digit strings, each followed by a text that does not start with a digit,
      give different texts. */
  lemma DigitsThenOtherDiffer(d1: string, d2: string, t1: string, t2: string)
    requires Text.AllDigits(d1) && Text.AllDigits(d2) && d1 != d2
    requires |t1| > 0 && |t2| > 0 && !Text.IsDigit(t1[0]) && !Text.IsDigit(t2[0])
    ensures d1 + t1 != d2 + t2
  {
    if |d1| == |d2| {
      var i :| 0 <= i < |d1| && d1[i] != d2[i];
      assert (d1 + t1)[i] != (d2 + t2)[i];
    } else if |d1| < |d2| {
      assert (d1 + t1)[|d1|] == t1[0] && (d2 + t2)[|d1|] == d2[|d1|];
    } else {
      assert (d1 + t1)[|d2|] == d1[|d2|] && (d2 + t2)[|d2|] == t2[0];
    }
  }

  const EnterName := "Please enter a name for your " + "tank setup"
  const NothingToSave := "No tank setup to save"

  /** The dialog's `handleSave`: the name is checked before the setup, and the setup is saved
      under the trimmed name. */
  function HandleSave(name: string, current: Option<TankSetup>): (r: Result<(TankSetup, string), string>)
    ensures Text.Blank(name) <==> r == Failure(EnterName)
    ensures r == Failure(NothingToSave) <==> !Text.Blank(name) && current.None?
    ensures r.Success? ==> r.value == (current.value, Text.Trim(name)) && r.value.1 != []
  {
    Text.TrimEmptyIffBlank(name);
    if Text.Trim(name) == [] then Failure(EnterName)
    else if current.None? then Failure(NothingToSave)
    else Success((current.value, Text.Trim(name)))
  }

  /** The dialog's "Save This Setup" button is disabled for a setup without fish and corals. */
  predicate SaveDisabled(current: TankSetup) {
    |current.fish| == 0 && |current.corals| == 0
  }

  /** A setup can be saved from the dialog exactly when the setup page would analyse it. */
  lemma SaveEnabledIffAnalyzable(current: TankSetup, text: string, fmt: real -> string)
    ensures !SaveDisabled(current) <==> Describe.Analyze(0, Some(current), text, fmt).Send?
  {
  }

  /** `handleLoadWithAnalysis`: only a setup with a stored analysis is loaded this way, as the
      form setup together with that analysis. */
  function LoadWithAnalysis(saved: SavedSetup): (r: Option<(TankSetup, AnalysisResult)>)
    ensures r.None? <==> saved.analysis.None?
    ensures r.Some? ==> r.value.1 == saved.analysis.value && r.value.0.fish == EntriesOf(saved.fish)
    ensures r.Some? ==> r.value.0 == FromSaved(saved)
  {
    if saved.analysis.None? then None else Some((FromSaved(saved), saved.analysis.value))
  }

  /** `handleDelete`: the delete request is sent only after the user confirms. */
  function ConfirmAndDelete(confirmed: bool, user: Option<UserId>, id: string, deleteError: Option<string>, store: Store): (r: Option<(Outcome<string>, Store)>)
    ensures r.None? <==> !confirmed
    ensures r.Some? ==> r.value == SetupStore.Delete(user, id, deleteError, store)
  {
    if !confirmed then None else Some(SetupStore.Delete(user, id, deleteError, store))
  }
}
