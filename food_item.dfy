/**
 * The detail screen (app/food-item.tsx): the `name` route parameter, once
 * decoded, selects the first record with exactly that name; the screen then
 * shows the record, with one progress bar per macro nutrient, or a
 * "Food item not found" view.
 */
module FoodItemScreen {
  import opened Wrappers

  datatype AyurvedaInfo = AyurvedaInfo(
    vataEffect: string,
    pittaEffect: string,
    kaphaEffect: string,
    thermalNature: string,
    bestTimeToEat: string)

  /** One record of the bundled dataset, as the detail screen types it. */
  datatype FoodItem = FoodItem(
    id: int,
    name: string,
    category: string,
    calories: real,
    protein_g: real,
    carbs_g: real,
    fats_g: real,
    fibre_g: real,
    ayurveda: AyurvedaInfo)

  /** The `name` route parameter: absent, one string, or repeated (an array). */
  datatype NameParam = Missing | Single(text: string) | Repeated(texts: seq<string>)

  /** The outcome of decoding the parameter. */
  datatype Decoding =
    | NoName             // the parameter is not a single string: `undefined`
    | Decoded(name: string)
    | Malformed          // `decodeURIComponent` throws a URIError

  /**
   * Only a single string is decoded; any other parameter gives no name. The
   * URI decoder is passed in and answers None where it would throw.
   */
  function DecodedName(param: NameParam, decode: string -> Option<string>): (d: Decoding)
    ensures d.NoName? <==> !param.Single?
    ensures d.Malformed? <==> param.Single? && decode(param.text).None?
    ensures d.Decoded? ==> param.Single? && decode(param.text) == Some(d.name)
  {
    match param
    case Single(text) => (match decode(text) case Some(name) => Decoded(name) case None => Malformed)
    case _ => NoName
  }

  /** The first record whose name is exactly `name` (strict equality, no case folding). */
  function FindByName(foods: seq<FoodItem>, name: string): (r: Option<FoodItem>)
    ensures r.None? <==> forall i :: 0 <= i < |foods| ==> foods[i].name != name
    ensures r.Some? ==> exists i :: 0 <= i < |foods| && foods[i] == r.value && r.value.name == name
                                    && forall j :: 0 <= j < i ==> foods[j].name != name
  {
    if foods == [] then None
    else if foods[0].name == name then Some(foods[0])
    else
      var r := FindByName(foods[1..], name);
      assert r.Some? ==> exists i :: 0 <= i < |foods[1..]| && foods[1..][i] == r.value
                                    && forall j :: 0 <= j < i ==> foods[1..][j].name != name;
      assert r.Some? ==> exists i :: 1 <= i < |foods| && foods[i] == r.value
                                    && forall j :: 0 <= j < i ==> foods[j].name != name;
      r
  }

  /**
   * The lookup on the decoded name: `undefined` never equals a string name,
   * so a missing or repeated parameter finds nothing.
   */
  function Lookup(foods: seq<FoodItem>, d: Decoding): (r: Option<FoodItem>)
    requires !d.Malformed?
    ensures d.NoName? ==> r.None?
    ensures d.Decoded? ==> r == FindByName(foods, d.name)
  {
    match d
    case Decoded(name) => FindByName(foods, name)
    case NoName => None
  }

  /** The record at the first index carrying `name` is the one found. */
  lemma FindByNameFirst(foods: seq<FoodItem>, name: string, i: nat)
    requires i < |foods| && foods[i].name == name
    requires forall j :: 0 <= j < i ==> foods[j].name != name
    ensures FindByName(foods, name) == Some(foods[i])
  {
  }

  /** Names are unique in the dataset. */
  predicate UniqueNames(foods: seq<FoodItem>) {
    forall i, j :: 0 <= i < j < |foods| ==> foods[i].name != foods[j].name
  }

  /** With unique names, looking up a record's own name finds that record. */
  lemma FindByNameUnique(foods: seq<FoodItem>, i: nat)
    requires UniqueNames(foods) && i < |foods|
    ensures FindByName(foods, foods[i].name) == Some(foods[i])
  {
    FindByNameFirst(foods, foods[i].name, i);
  }

  /**
   * The width, in percent, of a macro's progress bar: three times the grams,
   * capped at 100.
   */
  function BarWidth(value: real): (w: real)
    ensures w <= 100.0
    ensures value >= 0.0 ==> w >= 0.0
    ensures w == 100.0 <==> 3.0 * value >= 100.0
    ensures w < 100.0 ==> w == 3.0 * value
  {
    if value * 3.0 < 100.0 then value * 3.0 else 100.0
  }

  /** A larger value never gets a narrower bar. */
  lemma BarWidthMonotone(v: real, u: real)
    requires v <= u
    ensures BarWidth(v) <= BarWidth(u)
  {
  }

  /** For whole grams the bar is full from 34 g on, and not full below. */
  lemma BarWidthWholeGrams(n: int)
    ensures BarWidth(n as real) == 100.0 <==> n >= 34
  {
  }

  /** One row of the "Macro Breakdown" card. */
  datatype MacroRow = MacroRow(caption: string, grams: real, widthPercent: real)

  /** The rows for Protein, Carbs, Fats and Fibre, in that order. */
  function MacroRows(food: FoodItem): (rows: seq<MacroRow>)
    ensures |rows| == 4
    ensures rows[0].caption == "Protein" && rows[0].grams == food.protein_g
    ensures rows[1].caption == "Carbs" && rows[1].grams == food.carbs_g
    ensures rows[2].caption == "Fats" && rows[2].grams == food.fats_g
    ensures rows[3].caption == "Fibre" && rows[3].grams == food.fibre_g
    ensures forall k :: 0 <= k < |rows| ==> rows[k].widthPercent == BarWidth(rows[k].grams)
  {
    var pairs := [("Protein", food.protein_g), ("Carbs", food.carbs_g), ("Fats", food.fats_g), ("Fibre", food.fibre_g)];
    seq(|pairs|, k requires 0 <= k < |pairs| => MacroRow(pairs[k].0, pairs[k].1, BarWidth(pairs[k].1)))
  }

  /** All four nutrient quantities are non-negative, as they are in the dataset. */
  predicate NonNegativeMacros(food: FoodItem) {
    food.protein_g >= 0.0 && food.carbs_g >= 0.0 && food.fats_g >= 0.0 && food.fibre_g >= 0.0
  }

  /** Every bar fits its track, and is empty only for a zero quantity. */
  lemma MacroRowsWithinTrack(food: FoodItem)
    requires NonNegativeMacros(food)
    ensures forall row :: row in MacroRows(food) ==> 0.0 <= row.widthPercent <= 100.0
    ensures forall row :: row in MacroRows(food) ==> (row.widthPercent == 0.0 <==> row.grams == 0.0)
  {
  }

  /** What the detail screen shows. */
  datatype DetailView =
    | NotFound
    | Detail(title: string, subtitle: string, calories: real, macros: seq<MacroRow>, ayurveda: AyurvedaInfo)
    | Failed             // rendering threw, from the decoder

  /**
   * The screen: it fails if decoding throws, shows the not-found view when the
   * lookup finds nothing, and otherwise the cards of the first record with the
   * decoded name.
   */
  function DetailScreen(foods: seq<FoodItem>, param: NameParam, decode: string -> Option<string>): (v: DetailView)
    ensures v.Failed? <==> param.Single? && decode(param.text).None?
    ensures v.NotFound? <==> (!param.Single? ||
      (decode(param.text).Some? && forall i :: 0 <= i < |foods| ==> foods[i].name != decode(param.text).value))
    ensures v.Detail? ==> (param.Single? && decode(param.text).Some? &&
      exists i :: (0 <= i < |foods| && foods[i].name == decode(param.text).value
        && (forall j :: 0 <= j < i ==> foods[j].name != decode(param.text).value)
        && v == Detail(foods[i].name, foods[i].category + " dish", foods[i].calories, MacroRows(foods[i]), foods[i].ayurveda)))
  {
    var d := DecodedName(param, decode);
    if d.Malformed? then Failed
    else
      match Lookup(foods, d)
      case None => NotFound
      case Some(food) => Detail(food.name, food.category + " dish", food.calories, MacroRows(food), food.ayurveda)
  }

  const Idli := FoodItem(1, "Idli", "South Indian", 58.0, 2.0, 12.0, 0.4, 0.8,
    AyurvedaInfo("Balancing", "Balancing", "May increase", "Cooling", "Morning"))
  const Dosa := FoodItem(2, "Dosa", "South Indian", 168.0, 3.9, 29.0, 3.7, 1.6,
    AyurvedaInfo("Balancing", "May increase", "May increase", "Heating", "Morning"))

  /** The worked examples: "Dosa" is found, "Pizza" and the lower-case "dosa" are not. */
  lemma ExampleLookup()
    ensures FindByName([Idli, Dosa], "Dosa") == Some(Dosa)
    ensures FindByName([Idli, Dosa], "Pizza") == None
    ensures FindByName([Idli, Dosa], "dosa") == None
  {
    assert Idli.name != "Dosa" && Idli.name != "dosa";
    assert Dosa.name != "dosa";
  }
}
