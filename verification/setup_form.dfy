/** The structured tank description of the setup form (`TankSetupForm.tsx`) and the edits the
    form makes to it: field updates, adding, removing and changing fish and coral entries, and
    reading the filtration and water-parameter inputs. */
module SetupForm {
  import opened Wrappers
  import opened Catalogue
  import Text

  /** One fish or coral line: a species id and a quantity. */
  datatype Entry = Entry(species: string, quantity: real)

  /** The optional water readings; `None` is a reading never entered (`undefined`). */
  datatype WaterParams = WaterParams(ph: Option<real>, salinity: Option<real>, temperature: Option<real>)

  /** The form's `TankSetup`. Volumes and quantities are JavaScript numbers. */
  datatype TankSetup = TankSetup(
    volume: real,
    lighting: string,
    filtration: seq<string>,
    fish: seq<Entry>,
    corals: seq<Entry>,
    hasProteinSkimmer: bool,
    hasHeater: bool,
    hasWavemaker: bool,
    waterParams: WaterParams)

  const NoWaterParams := WaterParams(None, None, None)

  /** A reading that JavaScript treats as truthy: entered and not zero. */
  predicate Entered(o: Option<real>) {
    o.Some? && o.value != 0.0
  }

  /** The state the form starts from. The source reads the default volume from a catalogue
      list that the catalogue module does not export, so it is a parameter here. */
  function InitialSetup(volume: real): (s: TankSetup)
    ensures s.lighting in LightingOptions()
    ensures s.fish == [] && s.corals == [] && s.filtration == [] && s.waterParams == NoWaterParams
    ensures s.hasHeater && !s.hasProteinSkimmer && !s.hasWavemaker
  {
    TankSetup(volume, "led-medium", [], [], [], false, true, false, NoWaterParams)
  }

  /** A `Partial<TankSetup>`: the fields one edit supplies. */
  datatype SetupPatch = SetupPatch(
    volume: Option<real>,
    lighting: Option<string>,
    filtration: Option<seq<string>>,
    fish: Option<seq<Entry>>,
    corals: Option<seq<Entry>>,
    hasProteinSkimmer: Option<bool>,
    hasHeater: Option<bool>,
    hasWavemaker: Option<bool>,
    waterParams: Option<WaterParams>)

  const EmptyPatch := SetupPatch(None, None, None, None, None, None, None, None, None)

  /** `updateSetup`: `{ ...setup, ...patch }`. Every supplied field replaces the old value and
      every other field is kept. */
  function Update(s: TankSetup, p: SetupPatch): (r: TankSetup)
    ensures r.volume == p.volume.GetOr(s.volume) && r.lighting == p.lighting.GetOr(s.lighting)
    ensures r.filtration == p.filtration.GetOr(s.filtration)
    ensures r.fish == p.fish.GetOr(s.fish) && r.corals == p.corals.GetOr(s.corals)
    ensures r.hasProteinSkimmer == p.hasProteinSkimmer.GetOr(s.hasProteinSkimmer)
    ensures r.hasHeater == p.hasHeater.GetOr(s.hasHeater)
    ensures r.hasWavemaker == p.hasWavemaker.GetOr(s.hasWavemaker)
    ensures r.waterParams == p.waterParams.GetOr(s.waterParams)
  {
    TankSetup(
      p.volume.GetOr(s.volume), p.lighting.GetOr(s.lighting), p.filtration.GetOr(s.filtration),
      p.fish.GetOr(s.fish), p.corals.GetOr(s.corals),
      p.hasProteinSkimmer.GetOr(s.hasProteinSkimmer), p.hasHeater.GetOr(s.hasHeater),
      p.hasWavemaker.GetOr(s.hasWavemaker), p.waterParams.GetOr(s.waterParams))
  }

  /** Applying the same edit twice is the same as applying it once, and the empty edit changes
      nothing. */
  lemma UpdateIdempotent(s: TankSetup, p: SetupPatch)
    ensures Update(Update(s, p), p) == Update(s, p)
    ensures Update(s, EmptyPatch) == s
  {
  }

  /** The species ids of a list of entries, in list order (`entries.map(e => e.species)`). */
  function SpeciesIds(entries: seq<Entry>): (r: seq<string>)
    ensures |r| == |entries| && forall i :: 0 <= i < |entries| ==> r[i] == entries[i].species
  {
    seq(|entries|, i requires 0 <= i < |entries| => entries[i].species)
  }

  /** `catalogue.find(species => !used.includes(species.id))`, as a position: the first
      catalogue entry at or after `i` whose id is not used. */
  function FirstUnused(cat: seq<Species>, used: seq<string>, i: nat): (r: Option<nat>)
    requires i <= |cat|
    ensures r.Some? ==> i <= r.value < |cat| && cat[r.value].id !in used
    ensures r.Some? ==> forall k :: i <= k < r.value ==> cat[k].id in used
    ensures r.None? ==> forall k :: i <= k < |cat| ==> cat[k].id in used
    decreases |cat| - i
  {
    if i == |cat| then None
    else if cat[i].id !in used then Some(i)
    else FirstUnused(cat, used, i + 1)
  }

  /** Every species of the catalogue is already in the list. */
  predicate Exhausted(cat: seq<Species>, entries: seq<Entry>) {
    forall k :: 0 <= k < |cat| ==> cat[k].id in SpeciesIds(entries)
  }

  /** `addFish` / `addCoral` on the list alone: one entry with quantity 1 is appended, for the
      first catalogue species not yet in the list, or for the first catalogue species when every
      one is already there. */
  function AddEntry(entries: seq<Entry>, cat: seq<Species>): (r: seq<Entry>)
    requires |cat| > 0
    ensures |r| == |entries| + 1 && r[..|entries|] == entries
    ensures r[|entries|].quantity == 1.0 && r[|entries|].species in Ids(cat)
    ensures !Exhausted(cat, entries) <==> r[|entries|].species !in SpeciesIds(entries)
    ensures Exhausted(cat, entries) ==> r[|entries|].species == cat[0].id
    ensures !Exhausted(cat, entries) ==>
      exists p :: 0 <= p < |cat| && r[|entries|].species == cat[p].id
                  && cat[p].id !in SpeciesIds(entries)
                  && forall q :: 0 <= q < p ==> cat[q].id in SpeciesIds(entries)
  {
    var id := match FirstUnused(cat, SpeciesIds(entries), 0)
              case Some(k) => cat[k].id
              case None => cat[0].id;
    entries + [Entry(id, 1.0)]
  }

  /** Adding to a list without repeated species keeps it so while the catalogue still has an
      unused species. */
  lemma {:induction false} AddKeepsDistinct(entries: seq<Entry>, cat: seq<Species>)
    requires |cat| > 0 && Distinct(SpeciesIds(entries)) && !Exhausted(cat, entries)
    ensures Distinct(SpeciesIds(AddEntry(entries, cat)))
  {
    var r := AddEntry(entries, cat);
    var n := |entries|;
    forall i, j | 0 <= i < j < |r| ensures SpeciesIds(r)[i] != SpeciesIds(r)[j] {
      if j == n {
        assert SpeciesIds(entries)[i] == r[i].species;
      } else {
        assert r[i] == entries[i] && r[j] == entries[j];
      }
    }
  }

  /** Once the catalogue is exhausted, adding repeats the first catalogue species. */
  lemma AddWhenExhaustedRepeats(entries: seq<Entry>, cat: seq<Species>)
    requires |cat| > 0 && Exhausted(cat, entries)
    ensures !Distinct(SpeciesIds(AddEntry(entries, cat)))
  {
    var r := AddEntry(entries, cat);
    var ids := SpeciesIds(entries);
    assert cat[0].id in ids;
    var i :| 0 <= i < |ids| && ids[i] == cat[0].id;
    assert SpeciesIds(r)[i] == SpeciesIds(r)[|entries|];
  }

  /** `entries.filter((_, j) => j !== i)`: every position except `i`, in order. */
  function RemoveAt(entries: seq<Entry>, i: int): (r: seq<Entry>)
    ensures 0 <= i < |entries| ==> r == entries[..i] + entries[i + 1..]
    ensures !(0 <= i < |entries|) ==> r == entries
  {
    if |entries| == 0 then []
    else (if i == 0 then [] else [entries[0]]) + RemoveAt(entries[1..], i - 1)
  }

  /** Removing an entry keeps a list without repeated species so. */
  lemma RemoveKeepsDistinct(entries: seq<Entry>, i: int)
    requires Distinct(SpeciesIds(entries))
    ensures Distinct(SpeciesIds(RemoveAt(entries, i)))
  {
    if 0 <= i < |entries| {
      var r := RemoveAt(entries, i);
      var ids := SpeciesIds(entries);
      forall a, b | 0 <= a < b < |r| ensures SpeciesIds(r)[a] != SpeciesIds(r)[b] {
        RemovedIndex(entries, i, a);
        RemovedIndex(entries, i, b);
        var a' := if a < i then a else a + 1;
        var b' := if b < i then b else b + 1;
        assert ids[a'] != ids[b'];
      }
    }
  }

  /** Position `a` of the list without entry `i` holds the entry that followed the removed
      one by as many places, or stood before it. */
  lemma RemovedIndex(entries: seq<Entry>, i: int, a: nat)
    requires 0 <= i < |entries| && a < |entries| - 1
    ensures |RemoveAt(entries, i)| == |entries| - 1
    ensures RemoveAt(entries, i)[a] == entries[if a < i then a else a + 1]
  {
    var r := RemoveAt(entries, i);
    if a < i {
      assert r[a] == entries[..i][a];
    } else {
      assert r[a] == entries[i + 1..][a - i];
    }
  }

  /** The field an `updateFish` / `updateCoral` call sets. */
  datatype EntryEdit = SetSpecies(id: string) | SetQuantity(quantity: real)

  function Edit(e: Entry, edit: EntryEdit): (r: Entry)
    ensures edit.SetSpecies? ==> r == e.(species := edit.id)
    ensures edit.SetQuantity? ==> r == e.(quantity := edit.quantity)
  {
    match edit
    case SetSpecies(id) => Entry(id, e.quantity)
    case SetQuantity(q) => Entry(e.species, q)
  }

  /** `entries.map((e, j) => j === i ? { ...e, [field]: value } : e)`. */
  function UpdateAt(entries: seq<Entry>, i: int, edit: EntryEdit): (r: seq<Entry>)
    ensures |r| == |entries|
    ensures forall j :: 0 <= j < |entries| && j != i ==> r[j] == entries[j]
    ensures 0 <= i < |entries| ==> r[i] == Edit(entries[i], edit)
  {
    seq(|entries|, j requires 0 <= j < |entries| => if j == i then Edit(entries[j], edit) else entries[j])
  }

  /** Changing a quantity never affects which species are listed; changing a species keeps
      the list free of repeats when the new species is not listed at another position (the
      menu disables those). */
  lemma UpdateKeepsDistinct(entries: seq<Entry>, i: int, edit: EntryEdit)
    requires Distinct(SpeciesIds(entries))
    requires edit.SetSpecies? ==> forall j :: 0 <= j < |entries| && j != i ==> entries[j].species != edit.id
    ensures Distinct(SpeciesIds(UpdateAt(entries, i, edit)))
  {
    var r := UpdateAt(entries, i, edit);
    forall a, b | 0 <= a < b < |r| ensures SpeciesIds(r)[a] != SpeciesIds(r)[b] {
      assert SpeciesIds(entries)[a] != SpeciesIds(entries)[b];
    }
  }

  /** `addFish`: the fish list gains one entry and nothing else changes. */
  function AddFish(s: TankSetup): (r: TankSetup)
    ensures r == s.(fish := r.fish)
    ensures r.fish == AddEntry(s.fish, FishSpecies())
  {
    Update(s, EmptyPatch.(fish := Some(AddEntry(s.fish, FishSpecies()))))
  }

  /** `removeFish`: the entry at `i` leaves the fish list and nothing else changes. */
  function RemoveFish(s: TankSetup, i: int): (r: TankSetup)
    ensures r == s.(fish := r.fish)
    ensures 0 <= i < |s.fish| ==> r.fish == s.fish[..i] + s.fish[i + 1..]
  {
    Update(s, EmptyPatch.(fish := Some(RemoveAt(s.fish, i))))
  }

  /** `updateFish`: one field of the entry at `i` changes and nothing else does. */
  function UpdateFish(s: TankSetup, i: int, edit: EntryEdit): (r: TankSetup)
    ensures r == s.(fish := r.fish) && |r.fish| == |s.fish|
    ensures forall j :: 0 <= j < |s.fish| && j != i ==> r.fish[j] == s.fish[j]
    ensures 0 <= i < |s.fish| ==> r.fish[i] == Edit(s.fish[i], edit)
  {
    Update(s, EmptyPatch.(fish := Some(UpdateAt(s.fish, i, edit))))
  }

  /** `addCoral`: the coral list gains one entry and nothing else changes. */
  function AddCoral(s: TankSetup): (r: TankSetup)
    ensures r == s.(corals := r.corals)
    ensures r.corals == AddEntry(s.corals, CoralSpecies())
  {
    Update(s, EmptyPatch.(corals := Some(AddEntry(s.corals, CoralSpecies()))))
  }

  /** `removeCoral`: the entry at `i` leaves the coral list and nothing else changes. */
  function RemoveCoral(s: TankSetup, i: int): (r: TankSetup)
    ensures r == s.(corals := r.corals)
    ensures 0 <= i < |s.corals| ==> r.corals == s.corals[..i] + s.corals[i + 1..]
  {
    Update(s, EmptyPatch.(corals := Some(RemoveAt(s.corals, i))))
  }

  /** `updateCoral`: one field of the entry at `i` changes and nothing else does. */
  function UpdateCoral(s: TankSetup, i: int, edit: EntryEdit): (r: TankSetup)
    ensures r == s.(corals := r.corals) && |r.corals| == |s.corals|
    ensures forall j :: 0 <= j < |s.corals| && j != i ==> r.corals[j] == s.corals[j]
    ensures 0 <= i < |s.corals| ==> r.corals[i] == Edit(s.corals[i], edit)
  {
    Update(s, EmptyPatch.(corals := Some(UpdateAt(s.corals, i, edit))))
  }

  /** What the filtration menu reports: the selected values, or (after browser autofill) one
      string of comma-separated values. */
  datatype Selection = Values(values: seq<string>) | Joined(text: string)

  /** `handleFiltrationChange`: a string is split on `','`. */
  function FiltrationOf(sel: Selection): (r: seq<string>)
    ensures sel.Values? ==> r == sel.values
    ensures sel.Joined? ==> Text.Join(r, ",") == sel.text
  {
    match sel
    case Values(vs) => vs
    case Joined(t) => Text.SplitJoin(t, ","); Text.Split(t, ",")
  }

  /** Both forms of a non-empty selection of comma-free values give the same list. An empty
      selection does not survive the string form: `''.split(',')` is `['']`. */
  lemma FiltrationForms(vs: seq<string>)
    requires forall i :: 0 <= i < |vs| ==> ',' !in vs[i]
    ensures |vs| > 0 ==> FiltrationOf(Joined(Text.Join(vs, ","))) == FiltrationOf(Values(vs))
    ensures FiltrationOf(Joined(Text.Join([], ","))) == [""]
  {
    if |vs| > 0 {
      Text.JoinSplit(vs, ',');
    }
  }

  /** The unit system the user chose for display and input. */
  datatype UnitSystem = Imperial | Metric

  /** `Number(text)` of a number field. A field that is empty or blank reads as 0; any other
      text is read by `number`, the runtime's conversion, with text that is not a number
      (`NaN`) also reported as 0: every later use of a reading treats both as falsy. */
  function NumberOf(text: string, number: string -> real): (r: real)
    ensures Text.Blank(text) ==> r == 0.0
  {
    if Text.Trim(text) == [] then 0.0 else number(text)
  }

  /** The pH and salinity inputs: `{ ...waterParams, ph: Number(text) }`. */
  function SetPh(s: TankSetup, text: string, number: string -> real): (r: TankSetup)
    ensures r == s.(waterParams := s.waterParams.(ph := Some(NumberOf(text, number))))
  {
    Update(s, EmptyPatch.(waterParams := Some(s.waterParams.(ph := Some(NumberOf(text, number))))))
  }

  function SetSalinity(s: TankSetup, text: string, number: string -> real): (r: TankSetup)
    ensures r == s.(waterParams := s.waterParams.(salinity := Some(NumberOf(text, number))))
  {
    Update(s, EmptyPatch.(waterParams := Some(s.waterParams.(salinity := Some(NumberOf(text, number))))))
  }

  /** `parseTemperature`: `parseFloat(text) || 0`, converted from Fahrenheit to Celsius when
      the user works in imperial units. `parseFloat` is the runtime's conversion (`None` for
      `NaN`). */
  function Celsius(units: UnitSystem, text: string, parseFloat: string -> Option<real>): (r: real)
    ensures units.Imperial? ==> r * 9.0 / 5.0 + 32.0 == parseFloat(text).GetOr(0.0)
    ensures units.Metric? ==> r == parseFloat(text).GetOr(0.0)
    ensures units.Imperial? && parseFloat(text).GetOr(0.0) != -40.0 ==> r != parseFloat(text).GetOr(0.0)
  {
    var v := parseFloat(text).GetOr(0.0);
    if units.Imperial? then (v - 32.0) * 5.0 / 9.0 else v
  }

  /** The temperature input stores the Celsius value, whatever the display unit. */
  function SetTemperature(s: TankSetup, units: UnitSystem, text: string, parseFloat: string -> Option<real>): (r: TankSetup)
    ensures r == s.(waterParams := s.waterParams.(temperature := Some(Celsius(units, text, parseFloat))))
  {
    Update(s, EmptyPatch.(waterParams := Some(s.waterParams.(temperature := Some(Celsius(units, text, parseFloat))))))
  }
}
