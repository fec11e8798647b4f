# Gilded Rose item-update engine, in Dafny

This project models the daily update of the Gilded Rose inventory
(`Kotlin/src/main/kotlin/com/gildedrose/GildedRose.kt`). Each day every item
in the array is updated in place:

1. its `sellIn` drops by one, except for Sulfuras;
2. its quality changes by the rule of its category;
3. if the new `sellIn` is negative, the category's post-expiry rule applies too.

An item's category is decided by its name, by exact match:
"Aged Brie" is Cheese, "Backstage passes to a TAFKAL80ETC concert" is Tickets,
"Sulfuras, Hand of Ragnaros" is Sulfuras, and every other name is Regular.
Each quality change is a clamped single step. An increase does nothing at 50
or above, and a decrease does nothing at 0 or below. For tickets, the quality
step is a loop: it adds one clamped point for each of `s`, `s + 5`,
`s + 10`, ... that is below 15, where `s` is the updated `sellIn`.
Once expired, tickets are reset to 0.

Two modules:

- `ItemRules` (`rules.dfy`): the pure rules. It holds the `Category` datatype and
  the classifier, plus the clamped steps and the ticket-loop count. `Tick` is
  one day of one item as a function of its category and `(sellIn, quality)`,
  and `TickN` is `n` days. The lemmas give each category's closed form, the
  tier table, the bounds and Sulfuras's immobility.
- `GildedRose` (`gilded_rose.dfy`): the in-place engine. It holds the `Item`
  class (immutable `name`, mutable `sellIn` and `quality`) and one method per
  state-changing member of the wrapper classes, with the ticket `while` loop
  kept as a loop. `isOutdated`, which only reads `sellIn`, is the predicate
  `ItemRules.IsOutdated`.
  `GildedRose.UpdateQuality` walks the item array. Each method is proved
  against the functions of `ItemRules`.

Tickets whose updated `sellIn` is 15 or more gain nothing, because the loop
(GildedRose.kt:94) does not run. The tiers are 10..14 → +1, 5..9 → +2 and
0..4 → +3, as in the test scenarios at GildedRoseTest.kt:58-80.

The source first wraps every item (`items.map(::intoWrapper)`) and then updates
them one by one. A name never changes, so the model classifies each item just
before updating it, with the same result.

An item that sits twice in the array is the same object, so it is updated twice
in one call. `UpdateQuality` states this: each item ends up aged as many days as
it occurs in the array. A second clause states the usual case: in an array
without repetitions, every item is aged exactly one day.

## Model

| member | source | states |
|---|---|---|
| `ItemRules.ClassifyExact` | Kotlin/src/main/kotlin/com/gildedrose/GildedRose.kt:23-28 | specifies `Classify`, the model of `intoWrapper`: Cheese, Tickets and Sulfuras are each chosen exactly when the name equals their literal; Regular exactly when it equals none of the three |
| `ItemRules.Increased` | Kotlin/src/main/kotlin/com/gildedrose/GildedRose.kt:63-67 | a clamped increase adds at most one point, leaves quality unchanged exactly when it is already at 50 or above, and never pushes a quality ≤ 50 past 50 |
| `ItemRules.Decreased` | Kotlin/src/main/kotlin/com/gildedrose/GildedRose.kt:69-73 | a clamped decrease removes at most one point, leaves quality unchanged exactly when it is at 0 or below, and never takes a quality ≥ 0 below 0 |
| `ItemRules.RepeatIncrease` | Kotlin/src/main/kotlin/com/gildedrose/GildedRose.kt:92-98 | k clamped increases from q ≤ 50 give min(50, q + k); from q > 50 they change nothing |
| `ItemRules.TicketLoopCountClosedForm` | Kotlin/src/main/kotlin/com/gildedrose/GildedRose.kt:93-97 | specifies `TicketLoopCount`, the iteration count of the loop: the ticket loop started at `gaps` runs 0 times for gaps ≥ 15 and ceil((15 − gaps) / 5) times below 15 (its measure is 15 − gaps) |
| `ItemRules.TicketLoopCountTiers` | Kotlin/src/main/kotlin/com/gildedrose/GildedRose.kt:92-98 | for a sellIn ≥ 0 the loop count is the tier table: 0 from 15 up, 1 for 10..14, 2 for 5..9, 3 for 0..4 |
| `ItemRules.Tick` | Kotlin/src/main/kotlin/com/gildedrose/GildedRose.kt:13-21 | one day leaves an item unchanged exactly when it is Sulfuras; every other item loses exactly one day, and a quality in [0, 50] stays in [0, 50]. Its body chains `SellInAfter` (`updateSellIn`, 51-53 and 77-78), `CategoryQuality` (the `updateQuality` overrides, 57-58 and 82-98), `IsOutdated` (`isOutdated`, 55) and `QualityAfterOutdated` (the `updateQualityAfterOutdated` overrides, 60-61 and 83-102) |
| `ItemRules.RegularTick` | Kotlin/src/main/kotlin/com/gildedrose/GildedRose.kt:81-84 | a regular item with quality ≥ 0 goes to (s, max(0, q − 1)), or to (s, max(0, q − 2)) when the updated sellIn s is negative; so expiry starts the tick sellIn goes from 0 to −1 |
| `ItemRules.RegularNeverImproves` | Kotlin/src/main/kotlin/com/gildedrose/GildedRose.kt:81-84 | a regular item's quality never rises, and it falls exactly when it is above 0 |
| `ItemRules.CheeseTick` | Kotlin/src/main/kotlin/com/gildedrose/GildedRose.kt:86-89 | Aged Brie with quality ≤ 50 goes to min(50, q + 1), or min(50, q + 2) once the updated sellIn is negative; above 50 its quality is left as it is |
| `ItemRules.CheeseNeverDegrades` | Kotlin/src/main/kotlin/com/gildedrose/GildedRose.kt:86-89 | Aged Brie's quality never falls, and it rises exactly when it is below 50 |
| `ItemRules.TicketsTick` | Kotlin/src/main/kotlin/com/gildedrose/GildedRose.kt:91-103 | a ticket whose updated sellIn is negative has quality exactly 0, whatever it was; otherwise, from q ≤ 50, it gets min(50, q + tier gain), and above 50 it is left as it is |
| `ItemRules.SulfurasNeverChanges` | Kotlin/src/main/kotlin/com/gildedrose/GildedRose.kt:76-79 | any number of days leave a Sulfuras item's sellIn and quality unchanged, even with a negative sellIn |
| `ItemRules.TickNKeepsBounds` | Kotlin/src/main/kotlin/com/gildedrose/GildedRose.kt:43-74 | about `TickN`, `n` days of one item: after n days a non-Sulfuras item has lost exactly n days, and a quality that started in [0, 50] is still in [0, 50] |
| `ItemRules.TicketsScenarios` | Kotlin/src/test/kotlin/com/gildedrose/GildedRoseTest.kt:47-80 | the ticket scenarios of the test suite: (10, 50) → (9, 50), (0, 10) → (−1, 0), (5, 10) → (4, 13), (5, 50) → (4, 50), (10, 10) → (9, 12), (11, 10) → (10, 11) |
| `ItemRules.CheeseScenarios` | Kotlin/src/test/kotlin/com/gildedrose/GildedRoseTest.kt:84-102 | the Aged Brie scenarios of the test suite: (−1, 50), (−1, 48) and (−1, 49) all go to (−2, 50), and (10, 49) goes to (9, 50) |
| `ItemRules.RegularAndSulfurasScenarios` | Kotlin/src/test/kotlin/com/gildedrose/GildedRoseTest.kt:105-128 | the regular and Sulfuras scenarios of the test suite: (0, 0) → (−1, 0), (10, 0) → (9, 0), (10, 10) → (9, 9), (0, 10) → (−1, 8); Sulfuras (−1, 80) and (0, 80) unchanged |
| `GildedRose.RegularSellInScenario` | Kotlin/src/test/kotlin/com/gildedrose/GildedRoseTest.kt:132-138 | a regular item put through the inventory's daily update comes out with sellIn one less than it went in |
| `GildedRose.SulfurasSellInScenario` | Kotlin/src/test/kotlin/com/gildedrose/GildedRoseTest.kt:140-146 | a Sulfuras item put through the inventory's daily update comes out with the sellIn it went in with |
| `GildedRose.UpdateSellIn` | Kotlin/src/main/kotlin/com/gildedrose/GildedRose.kt:51-53 | decrements sellIn by one, except for Sulfuras (lines 77-78, a no-op), and leaves quality alone |
| `GildedRose.IncreaseQuality` | Kotlin/src/main/kotlin/com/gildedrose/GildedRose.kt:63-67 | sets quality to the clamped increase of its old value; sellIn unchanged |
| `GildedRose.DecreaseQuality` | Kotlin/src/main/kotlin/com/gildedrose/GildedRose.kt:69-73 | sets quality to the clamped decrease of its old value; sellIn unchanged |
| `GildedRose.UpdateTicketsQuality` | Kotlin/src/main/kotlin/com/gildedrose/GildedRose.kt:92-98 | the `while` loop applies exactly as many clamped increases as the loop count for the current sellIn; sellIn unchanged |
| `GildedRose.UpdateCategoryQuality` | Kotlin/src/main/kotlin/com/gildedrose/GildedRose.kt:81-98 | the per-category quality step: decrease for Regular, increase for Cheese, the loop for Tickets, nothing for Sulfuras (inherited no-op, line 57) |
| `GildedRose.UpdateQualityAfterOutdated` | Kotlin/src/main/kotlin/com/gildedrose/GildedRose.kt:81-102 | the per-category post-expiry step: decrease for Regular, increase for Cheese, reset to 0 for Tickets, nothing for Sulfuras (inherited no-op, line 60) |
| `GildedRose.UpdateItemQuality` | Kotlin/src/main/kotlin/com/gildedrose/GildedRose.kt:13-21 | updating one item in place leaves it in exactly the state `Tick` gives for its category and old state: sellIn first, then quality, then the post-expiry step checked on the new sellIn (line 55) |
| `GildedRose.AgedAlongOccurrences` | Kotlin/src/main/kotlin/com/gildedrose/GildedRose.kt:11 | walking the array with `forEach` ages an item as many days as it occurs in the array, because every occurrence is the same object |
| `GildedRose.AgedOnceWhenDistinct` | Kotlin/src/main/kotlin/com/gildedrose/GildedRose.kt:11 | in an array without repetitions, walking it ages each of its items exactly one day |
| `GildedRose.GildedRose.UpdateQuality` | Kotlin/src/main/kotlin/com/gildedrose/GildedRose.kt:3-11 | each array element ends up aged as many days as it occurs in the array, on its own fields only; in an array without repetitions, each item is aged exactly one day; the array, its order and every item's name are untouched |

## Left out

- The wrapper objects (`ItemWrapper`, `BaseItemWrapper` and its four subclasses) and the `items.map(::intoWrapper)` allocation. The category is a closed datatype passed alongside the item, and the overrides become `match` cases.
- The `Item` class lives in a file that is not part of this model. It is modelled as a class with an immutable `name` and mutable `sellIn` and `quality`; its other members (`toString`) are left out.
- Kotlin's 32-bit `Int`: `sellIn` and `quality` are unbounded integers. `sellIn -= 1` at `Int.MIN_VALUE` would wrap around in the source but does not here.
- Starting qualities outside [0, 50] are not validated, just as in the source. The lemmas state what happens to them: Aged Brie above 50, and unexpired tickets above 50, keep their quality; expired tickets drop to 0; a regular item above 0 loses one point a day, two once expired, but never goes below 0; one at or below 0 keeps its quality.
- The JUnit test class and its `ItemBuilder`. Its quality scenarios appear as `ItemRules.TicketsScenarios`, `ItemRules.CheeseScenarios` and `ItemRules.RegularAndSulfurasScenarios`. Its two sellIn scenarios appear as `GildedRose.RegularSellInScenario` and `GildedRose.SulfurasSellInScenario`, which go through the inventory object.
- Any multi-day driver or console fixture. `ItemRules.TickN` describes `n` days of one item.
