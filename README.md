# MyFoodDetector: search and detail lookup, in Dafny

MyFoodDetector is a small mobile app. It lists a bundled dataset of foods,
lets the user search it by name, and opens a detail screen for the chosen
food. The detail screen shows calories, one progress bar per macro nutrient,
and the food's Ayurveda attributes. This project models the two pieces of logic
behind those screens and proves their properties:

- **Search** (`app/food-selection.tsx`). A record is kept when its lower-cased
  name includes the lower-cased query. The list keeps dataset order. The
  "No food item found" line appears when nothing is left.
- **Detail lookup** (`app/food-item.tsx`). The `name` route parameter is
  decoded and then matched exactly (`Array.find`) against the records' names.
  The first matching record is shown; if none matches, the "Food item not
  found" view is shown. Each macro row (Protein, Carbs, Fats, Fibre, in that
  order) gets a bar `min(3 * grams, 100)` percent wide.

Modules:

- `Wrappers` (wrappers.dfy): `Option`.
- `Text` (text.dfy): ASCII `Lower`, the `Contains` substring scan, and its
  characterisation by occurrence positions.
- `FoodSelection` (food_selection.dfy): the search filter, its full
  characterisation (sound, complete, order-preserving, exact multiplicities,
  and unique with those properties), the empty-query, idempotence and
  case-insensitivity laws, and the search screen's empty-state condition.
- `FoodItemScreen` (food_item.dfy): the record types, parameter decoding,
  first-match lookup, bar width, macro rows and the detail screen's three
  outcomes.
- `Navigation` (navigation.dfy): the two screens read the same dataset. With
  unique names, tapping a card opens the detail view of that same record.

If names repeat, the lookup returns the first record with the name, because that is what `Array.find` does; the code has no tie-break of its own.

Both source files are pure view logic: every operation is a function, and
every property is a lemma or an `ensures` clause.

## Model

| member | source | states |
|---|---|---|
| `Text.LowerChar` | app/food-selection.tsx:31 | the result never is an upper-case ASCII letter; non-letters and lower-case letters are unchanged; 'A'..'Z' map to 'a'..'z' by the fixed offset |
| `Text.Lower` | app/food-selection.tsx:31 | lower-casing keeps the length and lower-cases every position independently |
| `Text.LowerIdempotent` | app/food-selection.tsx:31 | lower-casing an already lower-cased string changes nothing |
| `Text.Contains` | app/food-selection.tsx:31 | the `includes` test, as a scan over start positions: it can succeed only when the needle is no longer than the haystack, and it succeeds on a prefix and on the empty needle; the full characterisation is `Text.ContainsIff` |
| `Text.ContainsIff` | app/food-selection.tsx:31 | the `includes` scan succeeds exactly when the needle occurs at some position of the haystack (both directions) |
| `Text.ContainsEmpty` | app/food-selection.tsx:27-31 | every string includes the empty string |
| `FoodSelection.Matches` | app/food-selection.tsx:30-31 | the filter's callback, on the lower-cased name and query: every record matches the empty query, and a record matches only when the query is no longer than its name; `Filter` and its lemmas state what this selects |
| `FoodSelection.Filter` | app/food-selection.tsx:30-32 | the filtered list is no longer than the dataset; every record in it is in the dataset and matches (no false positives); every matching dataset record is in it (no false negatives) |
| `FoodSelection.FilterIsSubsequence` | app/food-selection.tsx:30-32 | the filtered list is a subsequence of the dataset, so dataset order is preserved |
| `FoodSelection.FilterCounts` | app/food-selection.tsx:30-32 | each matching record appears as often as in the dataset; each non-matching record appears zero times |
| `FoodSelection.SubsequenceCounts` | app/food-selection.tsx:30 | a subsequence holds no more copies of any value than its source |
| `FoodSelection.FilterUnique` | app/food-selection.tsx:30-32 | any subsequence of the dataset with exactly those multiplicities is the filtered list, so the properties above determine the filter |
| `FoodSelection.FilterAllMatching` | app/food-selection.tsx:30-32 | a list whose records all match is returned unchanged |
| `FoodSelection.FilterEmptyQuery` | app/food-selection.tsx:27-32 | the initial empty query returns the whole dataset in order |
| `FoodSelection.FilterIdempotent` | app/food-selection.tsx:30-32 | filtering the filtered list again with the same query changes nothing |
| `FoodSelection.FilterQueryCaseInsensitive` | app/food-selection.tsx:31 | a query and its lower-cased form give the same result |
| `FoodSelection.SearchScreen` | app/food-selection.tsx:72-78 | the grid shows the filtered list; the "No food item found" message appears exactly when the grid is empty, which is exactly when no dataset record matches the query |
| `FoodSelection.SearchScreenEmptyQuery` | app/food-selection.tsx:27-78 | with the empty query the grid is the whole dataset, and the message appears exactly when the dataset is empty |
| `FoodSelection.ExampleSearch` | app/food-selection.tsx:30-32 | [Idli, Dosa, Poha] searched for "o" gives [Dosa, Poha]: order kept and Idli excluded |
| `FoodItemScreen.DecodedName` | app/food-item.tsx:33-34 | there is no name exactly when the parameter is not a single string; decoding fails exactly when the decoder rejects the string; otherwise the name is the decoder's output |
| `FoodItemScreen.FindByName` | app/food-item.tsx:36 | the result is none exactly when no record's name equals the name; when found, the result is the record at an index whose name equals the name exactly, and no earlier record has that name (first match) |
| `FoodItemScreen.Lookup` | app/food-item.tsx:33-36 | a missing or repeated parameter finds nothing; a decoded name is looked up exactly |
| `FoodItemScreen.FindByNameFirst` | app/food-item.tsx:36 | conversely, the first index carrying the name is the record returned, so duplicate names resolve to the earliest one |
| `FoodItemScreen.FindByNameUnique` | app/food-item.tsx:36 | in a dataset with unique names, looking up a record's own name returns that record |
| `FoodItemScreen.ExampleLookup` | app/food-item.tsx:36 | "Dosa" is found; "Pizza" and the lower-case "dosa" are not (no case folding) |
| `FoodItemScreen.BarWidth` | app/food-item.tsx:82 | the width never exceeds 100; it is non-negative for non-negative grams; it is exactly 100 when three times the grams reach 100; below the cap it is three times the grams |
| `FoodItemScreen.BarWidthMonotone` | app/food-item.tsx:82 | more grams never give a narrower bar |
| `FoodItemScreen.BarWidthWholeGrams` | app/food-item.tsx:82 | for whole grams the bar is full exactly from 34 g on |
| `FoodItemScreen.MacroRows` | app/food-item.tsx:67-82 | four rows, Protein, Carbs, Fats and Fibre in that order, each paired with its own field, each bar the capped width of its grams |
| `FoodItemScreen.MacroRowsWithinTrack` | app/food-item.tsx:77-85 | for non-negative nutrients every bar lies between 0 and 100 percent, and is empty exactly for zero grams |
| `FoodItemScreen.DetailScreen` | app/food-item.tsx:33-60 | the screen fails exactly when decoding throws; it shows the not-found view exactly when the parameter is not a single string or no record has the decoded name; otherwise it shows the first record with that name: its name as title, "<category> dish", calories, its macro rows and its Ayurveda fields |
| `Navigation.AsFood` | app/food-selection.tsx:16-23 | the search screen sees a record's id, name and category |
| `Navigation.FoodList` | app/food-selection.tsx:23 | the search screen's list is the dataset, record for record, in order |
| `Navigation.Tap` | app/food-selection.tsx:38 | the route parameter a tap produces: the card's raw, unencoded name as one string, assuming the router hands the query value back as a single string unchanged |
| `Navigation.TapShowsTappedFood` | app/food-selection.tsx:38 | with unique names, and a name that decodes to itself, tapping any card of the grid opens the detail view of that same record: the lookup finds a dataset record whose search-screen view is the card, and the whole view (title, "<category> dish", calories, macro rows, Ayurveda fields) is that record's |

## Left out

- Full Unicode `toLowerCase`: `Text.Lower` folds only 'A'..'Z'. Other upper-case letters (accented Latin, Greek, ...) are unchanged, and so are the special cases that change length in JavaScript. Idempotence and length preservation are proved for this ASCII version.
- Every record is assumed to carry a string `name`. The code casts the JSON without checking it (app/food-item.tsx:27). A record without a `name` would equal an absent parameter under `===` (app/food-item.tsx:36) and would be shown; `FoodItemScreen.Lookup` returns nothing for an absent parameter instead.
- `decodeURIComponent` is a parameter of type `string -> Option<string>` (None where it throws a URIError). Its behaviour is not modelled. The card's link at app/food-selection.tsx:38 interpolates the name without encoding it. A name with `%`, `&`, `#` or `+` may reach the detail screen altered or make the decoder throw. The round trip is not proved: `Navigation.TapShowsTappedFood` requires the name to decode to itself.
- The router: `router.push` and `useLocalSearchParams` are not modelled. A tap is modelled as producing the single-string parameter `Single(name)`. The parameter's three shapes (absent, one string, an array) are the input of `DecodedName`.
- The bundled dataset `data/food.json` is not part of this model. It is a given sequence of records. The code only casts the parsed JSON to the record type (app/food-selection.tsx:23, app/food-item.tsx:27) and validates nothing, so no validation is modelled. Name uniqueness is an assumption of the lemmas that need it (`UniqueNames`); it is not checked.
- `Number(value) * 3` is floating point in JavaScript. Grams and widths are `real` here, so rounding and NaN are not modelled.
- React state (`useState` for the query), the keystroke handler, and how the value reaches the filter: the filter is modelled as a function of the query.
- Rendering: JSX layout, styles, gradients, the grid's column count and key extractor, the `"{value}g"` labels, and the fixed 70% body-type bars (app/food-item.tsx:126).
- app/camera.tsx (permissions, preview, capture) and app/index.tsx (a static landing screen with one link) are not part of this model. They are device I/O and static UI.
