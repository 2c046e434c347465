# Card collection backend: generation grouping and card saving

This project models the rule-based parts of the card-collection backend
(`backend/index.js`) in Dafny.

- **Generation grouping** (`GET /api/collections-grouped`). Every stored card
  goes into one of eight lists, keyed `gen1` … `gen8`. The handler reads the
  card's `nationalPokedexNumber` and uses 0 when the number is missing or
  falsy. It then tests seven inclusive ranges in ascending order:
  [1,151], [152,251], [252,386], [387,493], [494,649], [650,721] and
  [722,809]. The eighth range [810,905] and every number outside all ranges
  go to `gen8`. Cards are appended in storage order and never re-sorted.
- **Card saving** (`POST /api/cards`). A card is built from the four body
  fields `name`, `type`, `imageUrl` and `nationalPokedexNumber`. The card
  schema requires `name` and `type`. A failed validation or a failed write is
  answered with status 500 and `"Failed to save card"`. A successful save
  answers `"Card saved!"` with the card.

Layout:

- `cards.dfy` (module `Cards`): the `Card` record, with every field optional,
  plus the schema rule and the save handler as a function from the store to
  the new store and response.
- `generations.dfy` (module `Generations`): the range table, the classifier
  `Generation` and its properties.
- `grouping.dfy` (module `Grouping`): the specification of the grouped
  response (`Bucket`, `Grouped`), the imperative grouping loop
  `GroupByGeneration` proved equal to it, the endpoint handler, and the
  properties of the grouping.

Modelling decisions:

- Persistence is abstracted. The store is a sequence of cards in storage
  order. Whether a read or write succeeds is a boolean parameter.
- The Pokedex number is `Option<int>`. `None` and `Some(0)` both read as 0,
  as `card.nationalPokedexNumber || 0` does.
- A required string counts as present only when it is given and non-empty.
  That is what the document library's `required` check does for `String`
  paths.
- The grouped response is a `map<Gen, seq<Card>>` from the generation number
  g (1 to 8) to the list sent under the property `gen<g>`. `Label(g)` gives
  that property name, and the labels are proved distinct, so keying on g
  loses nothing.
- The code has no user accounts, no ownership filter and no 400 status:
  `Card.find()` (backend/index.js:52) is unfiltered and every save failure
  answers 500 (backend/index.js:43-45). The model has no users either.

## Model

| member | source | states |
|---|---|---|
| `Cards.DexOrZero` | backend/index.js:66 | A missing Pokedex number reads as 0; a present number reads as itself (so a falsy 0 also reads as 0) |
| `Cards.SaveCard` | backend/index.js:37-46 | The save succeeds iff `name` and `type` are present and the write succeeds; success answers "Card saved!" with the built card and appends it to the store; any failure answers 500 "Failed to save card" and leaves the store unchanged |
| `Cards.MissingRequiredFieldFails` | backend/models/Card.js:4-5 | A body with no `name` or no `type` is refused with 500, whatever the database would do, and nothing is stored |
| `Cards.ImageUrlIsOptional` | backend/models/Card.js:6 | Among string or absent values, changing `imageUrl` (including removing it) never changes whether a save succeeds |
| `Cards.DexIsNotValidated` | backend/models/Card.js:3-7 | The schema does not declare the Pokedex number, so its value never changes whether a save succeeds |
| `Cards.ClientBodyIsSaved` | frontend/src/components/Home.jsx:22-26 | The body the home page posts (name, a type that the page replaces by "Unknown" when missing, image URL, no Pokedex number) is saved when name and type are non-empty and the write succeeds |
| `Generations.Generation` | backend/index.js:68-76 | The generation is always in 1..8; below 8 the number lies in that generation's range, and it lies in no earlier range (first match of the if/else chain) |
| `Generations.RangesAscendingAndContiguous` | backend/index.js:68-75 | The eight ranges are non-empty, ascending and pairwise disjoint; each starts one past the previous end, covering [1,905] |
| `Generations.RangesDisjoint` | backend/index.js:68-75 | No number lies in two ranges |
| `Generations.GenerationIff` | backend/index.js:68-74 | For g in 1..7, a number is classified as g iff it lies in the g-th inclusive range |
| `Generations.Generation8Iff` | backend/index.js:75-76 | A number is classified as 8 iff it lies in none of the first seven ranges, i.e. iff it is below 1 or above 809 |
| `Generations.OutOfRangeIsGen8` | backend/index.js:66-76 | 0 (a missing number), negatives and numbers above 905 fall back to generation 8 |
| `Generations.BoundariesSplit` | backend/index.js:68-75 | For each g in 1..7, the last number of range g goes to g and the next number goes to g+1 |
| `Generations.BoundaryExamples` | backend/index.js:68-76 | 151/152, 251/252, 386/387, 493/494, 649/650, 721/722 and 809/810 split across adjacent generations; 905, 906, 0 and 9999 go to 8 |
| `Grouping.GroupByGeneration` | backend/index.js:54-77 | The loop starts from eight empty lists, appends each card in order to the list of its generation, and ends with exactly the grouped collection `Grouped(cards)` |
| `Grouping.HandleGroupedCollection` | backend/index.js:50-84 | A successful read of the whole store is answered with the grouping of every stored card, with no filter applied; a failed read answers 500 "Failed to group cards" |
| `Grouping.LabelsDistinct` | backend/index.js:54-63 | The eight response properties `gen1`…`gen8` have distinct names, one per generation |
| `Grouping.GroupedShape` | backend/index.js:54-63 | Whatever the input, the response has exactly the eight generations as keys, sent as exactly the properties `gen1`…`gen8` |
| `Grouping.EmptyInputEmptyBuckets` | backend/index.js:54-65 | An empty store yields exactly the eight keys, each with an empty list |
| `Grouping.BucketAppend` | backend/index.js:65-77 | Appending a card to the input appends it to its own generation's bucket and leaves every other bucket unchanged |
| `Grouping.GroupedAppend` | backend/index.js:65-77 | One loop step: grouping `cards + [card]` equals grouping `cards` and then pushing `card` onto the list under its generation's key |
| `Grouping.BucketMultiplicity` | backend/index.js:65-77 | A card occurs in bucket g exactly as often as in the input if its generation is g, and never otherwise: each card is in exactly one bucket, and nothing is dropped or duplicated |
| `Grouping.BucketMembership` | backend/index.js:65-77 | A card is in bucket g iff it is stored and its generation is g |
| `Grouping.ExactlyOneBucket` | backend/index.js:65-77 | Every stored card is listed under its own generation's key and under no other key |
| `Grouping.InBucketIffInRange` | backend/index.js:68-74 | For g in 1..7, a stored card is listed under `gen<g>` iff its Pokedex number lies in the g-th range |
| `Grouping.UnnumberedCardIsGen8` | backend/index.js:66-76 | A stored card with no Pokedex number, or with a number below 1 or above 905, is listed under generation 8 (`gen8`) |
| `Grouping.CountFrom` | backend/index.js:65-77 | The occurrences of a card in the lists of generations g..8 equal its stored occurrences if its generation is g or later, and are zero otherwise |
| `Grouping.BucketsPartition` | backend/index.js:52-77 | The eight lists, laid end to end, are as long as the store and hold exactly the stored cards with their multiplicities: nothing is dropped or duplicated |
| `Grouping.BucketSizesSum` | backend/index.js:65-77 | The eight list lengths of the response sum to the number of stored cards |
| `Grouping.BucketIsSubsequence` | backend/index.js:65-77 | Each list is an order-preserving subsequence of the stored cards |
| `Grouping.SavedCardIsGrouped` | backend/index.js:37-77 | After a successful save, the new card is appended to its generation's list and the other lists are unchanged; a card saved without a Pokedex number lands at the end of `gen8` |

## Left out

- `GET /api/random-card` (backend/index.js:87-121): an outbound HTTP call to the card catalog. It picks a card with `Math.random` and floating-point `Math.floor`.
- `GET /api/cards` (backend/index.js:26-34): returns the store as read, or 500 on a failed read. It has no logic beyond the read.
- Server setup, CORS, the health route and the listener (backend/index.js:1-23, 123-126), and `backend/db.js`: I/O plumbing and process exit.
- `backend/models/IPTracker.js`: no code path uses this schema.
- The frontend components: UI rendering, `fetch` calls, local storage and modal state.
- Database semantics: `Card.find` and `save` are a given sequence and a success flag. Schema strict mode is not modelled. In the running system it drops the undeclared `nationalPokedexNumber` on save, so every stored card would land in `gen8`. The model keeps whatever number the body supplied and covers every stored number.
- JavaScript coercion of non-integer Pokedex values (strings, fractions, `NaN`, booleans): the number is modelled as an integer or absent. The library's casting of non-string `name`, `type` or `imageUrl` values is not modelled either: a posted value it cannot cast to a string (an object or an array) makes `save` reject with 500, and the model has no such values.
- Grouping.SavedCardIsGrouped: the model takes an unsorted `Card.find()` to return cards in insertion order, so a saved card comes last in its list. The database does not promise that order; membership in its generation's list and the other lists being unchanged do not depend on it.
- User accounts, bearer tokens, token claims and per-user ownership: none of the modelled code has them.
