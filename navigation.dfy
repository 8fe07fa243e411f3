/**
 * The hand-over between the two screens: both read the same bundled dataset
 * (the search screen sees only `id`, `name` and `category`), and tapping a
 * card opens `/food-item?name=<name>` (app/food-selection.tsx:38).
 */
module Navigation {
  import opened FoodSelection
  import opened FoodItemScreen
  import opened Wrappers

  /** The search screen's view of one record of the dataset. */
  function AsFood(item: FoodItem): (f: Food)
    ensures f.id == item.id && f.name == item.name && f.category == item.category
  {
    Food(item.id, item.name, item.category)
  }

  /** The dataset cast to the search screen's record shape, record for record. */
  function FoodList(items: seq<FoodItem>): (r: seq<Food>)
    ensures |r| == |items|
    ensures forall i :: 0 <= i < |items| ==> r[i] == AsFood(items[i])
  {
    if items == [] then [] else [AsFood(items[0])] + FoodList(items[1..])
  }

  /** The route parameter a tap on the card for `card` produces. */
  function Tap(card: Food): (p: NameParam)
    ensures p.Single? && p.text == card.name
  {
    Single(card.name)
  }

  /**
   * With unique names, tapping any card of the search grid opens the detail
   * view of that very record, provided its name comes back unchanged through
   * the URI decoder.
   */
  lemma TapShowsTappedFood(items: seq<FoodItem>, query: string, card: Food, decode: string -> Option<string>)
    requires UniqueNames(items)
    requires card in SearchScreen(FoodList(items), query).grid
    requires decode(card.name) == Some(card.name)
    ensures DetailScreen(items, Tap(card), decode).Detail?
    ensures DetailScreen(items, Tap(card), decode).title == card.name
    ensures DetailScreen(items, Tap(card), decode).subtitle == card.category + " dish"
    ensures FindByName(items, card.name).Some?
    ensures var food := FindByName(items, card.name).value;
      food in items && AsFood(food) == card
      && DetailScreen(items, Tap(card), decode)
         == Detail(food.name, food.category + " dish", food.calories, MacroRows(food), food.ayurveda)
  {
    var list := FoodList(items);
    assert card in list;
    var i :| 0 <= i < |list| && list[i] == card;
    assert items[i].name == card.name && items[i].category == card.category;
    FindByNameUnique(items, i);
    assert DecodedName(Tap(card), decode) == Decoded(card.name);
    assert Lookup(items, Decoded(card.name)) == Some(items[i]);
    assert DetailScreen(items, Tap(card), decode)
        == Detail(items[i].name, items[i].category + " dish", items[i].calories, MacroRows(items[i]), items[i].ayurveda);
  }
}
