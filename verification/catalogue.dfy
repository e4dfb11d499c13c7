/** The option lists the setup form offers: the fish and coral catalogues its species menus
    range over, and the values of the volume, lighting and filtration menus. Only the fields
    the modelled operations read are kept (a species' id and display name, an option's
    value). */
module Catalogue {
  import opened Wrappers

  datatype Species = Species(id: string, name: string)

  /** No value occurs twice. */
  predicate Distinct<T(==)>(xs: seq<T>) {
    forall i, j :: 0 <= i < j < |xs| ==> xs[i] != xs[j]
  }

  /** The ids of a catalogue, in catalogue order. */
  function Ids(cat: seq<Species>): (r: seq<string>)
    ensures |r| == |cat| && forall i :: 0 <= i < |cat| ==> r[i] == cat[i].id
  {
    seq(|cat|, i requires 0 <= i < |cat| => cat[i].id)
  }

  /** A list on which `pos` recovers each element's position has no repeats. */
  lemma DistinctByPosition<T>(xs: seq<T>, pos: T -> int)
    requires forall i :: 0 <= i < |xs| ==> pos(xs[i]) == i
    ensures Distinct(xs)
  {
    forall i, j | 0 <= i < j < |xs| ensures xs[i] != xs[j] {
      assert pos(xs[i]) != pos(xs[j]);
    }
  }

  /** A text's first character (a space for the empty text) and its length. */
  function Signature(s: string): (char, nat) {
    (if s == [] then ' ' else s[0], |s|)
  }

  /** The position of a fish id in `fishSpecies`, told apart by its signature. */
  function FishPosition(id: string): int {
    match Signature(id)
    case ('o', 15) => 0  case ('p', 13) => 1  case ('m', 12) => 2  case ('y', 11) => 3
    case ('b', 9) => 4   case ('p', 17) => 5  case ('s', 15) => 6  case ('f', 12) => 7
    case ('c', 14) => 8  case ('m', 13) => 9  case ('w', 13) => 10 case ('f', 13) => 11
    case ('b', 16) => 12 case ('p', 15) => 13 case ('c', 12) => 14 case ('f', 11) => 15
    case ('r', 12) => 16 case ('c', 7) => 17  case _ => -1
  }

  /** The position of a coral id in `coralSpecies`, told apart by its signature. */
  function CoralPosition(id: string): int {
    match Signature(id)
    case ('m', 8) => 0   case ('l', 7) => 1   case ('z', 9) => 2   case ('k', 10) => 3
    case ('f', 9) => 4   case ('h', 6) => 5   case ('t', 5) => 6   case ('b', 6) => 7
    case ('p', 5) => 8   case ('b', 9) => 9   case ('m', 9) => 10  case ('a', 8) => 11
    case ('s', 8) => 12  case ('g', 3) => 13  case ('x', 5) => 14  case _ => -1
  }

  /** `fishSpecies`: eighteen species, no id listed twice. */
  function FishSpecies(): (r: seq<Species>)
    ensures |r| > 0 && Distinct(Ids(r))
  {
    var r := [
      Species("ocellaris-clown", "Ocellaris Clownfish"),
      Species("percula-clown", "Percula Clownfish"),
      Species("maroon-clown", "Maroon Clownfish"),
      Species("yellow-tang", "Yellow Tang"),
      Species("blue-tang", "Blue Tang"),
      Species("powder-brown-tang", "Powder Brown Tang"),
      Species("six-line-wrasse", "Six Line Wrasse"),
      Species("fairy-wrasse", "Fairy Wrasse"),
      Species("cleaner-wrasse", "Cleaner Wrasse"),
      Species("mandarin-goby", "Mandarin Goby"),
      Species("watchman-goby", "Yellow Watchman Goby"),
      Species("firefish-goby", "Firefish Goby"),
      Species("banggai-cardinal", "Banggai Cardinal"),
      Species("pajama-cardinal", "Pajama Cardinal"),
      Species("coral-beauty", "Coral Beauty Angel"),
      Species("flame-angel", "Flame Angel"),
      Species("royal-gramma", "Royal Gramma"),
      Species("chromis", "Blue Green Chromis")
    ];
    DistinctByPosition(Ids(r), FishPosition);
    r
  }

  /** `coralSpecies`: fifteen species, no id listed twice. */
  function CoralSpecies(): (r: seq<Species>)
    ensures |r| > 0 && Distinct(Ids(r))
  {
    var r := [
      Species("mushroom", "Mushroom Coral"),
      Species("leather", "Leather Coral"),
      Species("zoanthids", "Zoanthids"),
      Species("kenya-tree", "Kenya Tree Coral"),
      Species("frogspawn", "Frogspawn Coral"),
      Species("hammer", "Hammer Coral"),
      Species("torch", "Torch Coral"),
      Species("bubble", "Bubble Coral"),
      Species("plate", "Plate Coral"),
      Species("birdsnest", "Birdsnest Coral"),
      Species("montipora", "Montipora"),
      Species("acropora", "Acropora"),
      Species("staghorn", "Staghorn Coral"),
      Species("gsp", "Green Star Polyps"),
      Species("xenia", "Pulsing Xenia")
    ];
    DistinctByPosition(Ids(r), CoralPosition);
    r
  }

  /** The values of `tankVolumes`, in gallons, listed from smallest to largest. */
  function TankVolumes(): (r: seq<nat>)
    ensures |r| > 0 && forall i, j :: 0 <= i < j < |r| ==> r[i] < r[j]
  {
    [10, 20, 29, 40, 55, 75, 90, 120, 150, 180, 220, 300]
  }

  /** The values of `lightingOptions`; the form's initial lighting `'led-medium'` is one of
      them. */
  function LightingOptions(): (r: seq<string>)
    ensures Distinct(r) && "led-medium" in r
  {
    ["none", "fluorescent", "led-low", "led-medium", "led-high", "halide"]
  }

  /** The values of `filtrationOptions`. None contains a comma, so a selection joined with
      commas splits back into the same values. */
  function FiltrationOptions(): (r: seq<string>)
    ensures Distinct(r) && forall i :: 0 <= i < |r| ==> ',' !in r[i] && r[i] != []
  {
    ["hob", "canister", "sump", "protein-skimmer", "live-rock", "refugium"]
  }

  /** The position of the first catalogue entry with id `id`. */
  function FindSpecies(cat: seq<Species>, id: string, i: nat): (r: Option<nat>)
    requires i <= |cat|
    ensures r.Some? ==> i <= r.value < |cat| && cat[r.value].id == id
    ensures r.Some? ==> forall k :: i <= k < r.value ==> cat[k].id != id
    ensures r.None? <==> forall k :: i <= k < |cat| ==> cat[k].id != id
    decreases |cat| - i
  {
    if i == |cat| then None else if cat[i].id == id then Some(i) else FindSpecies(cat, id, i + 1)
  }

  /** `getSpeciesName` of the saved-setup views: the display name of the catalogue entry with
      this id (`find(...)?.name || id`), or the id itself for a species the catalogue does not
      list. */
  function SpeciesName(cat: seq<Species>, id: string): (r: string)
    ensures id !in Ids(cat) ==> r == id
    ensures Distinct(Ids(cat)) ==> forall k :: 0 <= k < |cat| && cat[k].id == id && cat[k].name != [] ==> r == cat[k].name
    ensures forall k :: 0 <= k < |cat| && cat[k].id == id && (forall j :: 0 <= j < k ==> cat[j].id != id) ==>
      r == if cat[k].name != [] then cat[k].name else id
  {
    match FindSpecies(cat, id, 0)
    case None => id
    case Some(k) => if cat[k].name != [] then cat[k].name else id
  }
}
