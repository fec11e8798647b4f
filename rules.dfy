/** The aging rules of the Gilded Rose inventory, as pure functions.

    One tick of one item is a function of its category and its
    (sellIn, quality) pair. It runs in three steps, in this order:
    the category's sellIn update, the category's quality update (which
    for tickets reads the already updated sellIn), and, when the updated
    sellIn is negative, the category's post-expiry update.
    The imperative methods of module GildedRose are proved against `Tick`. */
module ItemRules {

  const SULFURAS: string := "Sulfuras, Hand of Ragnaros"
  const CHEESE: string := "Aged Brie"
  const TICKETS: string := "Backstage passes to a TAFKAL80ETC concert"

  const MAX_QUALITY: int := 50
  const MIN_QUALITY: int := 0
  const DELTA_QUALITY: int := 1

  /** The ticket loop adds one point for each of sellIn, sellIn + 5,
      sellIn + 10, ... that is below this horizon. */
  const TICKET_HORIZON: int := 15
  const TICKET_GAP: int := 5

  /** The four kinds of item; one per wrapper class of the source. */
  datatype Category = Cheese | Tickets | Sulfuras | Regular

  /** The mutable part of an item. */
  datatype ItemState = ItemState(sellIn: int, quality: int)

  predicate InRange(quality: int) {
    MIN_QUALITY <= quality <= MAX_QUALITY
  }

  function Min(a: int, b: int): int { if a <= b then a else b }

  function Max(a: int, b: int): int { if a <= b then b else a }

  /** The category of an item, decided by its name. */
  function Classify(name: string): Category {
    if name == CHEESE then Cheese
    else if name == TICKETS then Tickets
    else if name == SULFURAS then Sulfuras
    else Regular
  }

  /** Classification is an exact, case-sensitive match of the three special
      names; every other name is a regular item. */
  lemma ClassifyExact(name: string)
    ensures Classify(name) == Cheese <==> name == CHEESE
    ensures Classify(name) == Tickets <==> name == TICKETS
    ensures Classify(name) == Sulfuras <==> name == SULFURAS
    ensures Classify(name) == Regular <==> name != CHEESE && name != TICKETS && name != SULFURAS
  {
  }

  /** One clamped increase: a single point up, unless quality is already
      at (or above) the maximum. */
  function Increased(quality: int): (r: int)
    ensures quality <= r <= quality + DELTA_QUALITY
    ensures r == quality <==> quality >= MAX_QUALITY
    ensures quality <= MAX_QUALITY ==> r <= MAX_QUALITY
  {
    if quality < MAX_QUALITY then quality + DELTA_QUALITY else quality
  }

  /** One clamped decrease: a single point down, unless quality is already
      at (or below) the minimum. */
  function Decreased(quality: int): (r: int)
    ensures quality - DELTA_QUALITY <= r <= quality
    ensures r == quality <==> quality <= MIN_QUALITY
    ensures MIN_QUALITY <= quality ==> MIN_QUALITY <= r
  {
    if quality > MIN_QUALITY then quality - DELTA_QUALITY else quality
  }

  /** `k` clamped increases in a row: the result is the sum capped at the
      maximum, and a quality already above the maximum is left alone. */
  function RepeatIncrease(quality: int, k: nat): (r: int)
    ensures quality <= MAX_QUALITY ==> r == Min(MAX_QUALITY, quality + k)
    ensures quality > MAX_QUALITY ==> r == quality
  {
    if k == 0 then quality else Increased(RepeatIncrease(quality, k - 1))
  }

  /** The number of iterations of the ticket loop started at `gaps`. */
  function TicketLoopCount(gaps: int): nat
    decreases TICKET_HORIZON - gaps
  {
    if gaps < TICKET_HORIZON then 1 + TicketLoopCount(gaps + TICKET_GAP) else 0
  }

  /** The closed-form tier table for tickets that have not expired. */
  function TierGain(sellIn: int): nat {
    if sellIn >= 15 then 0
    else if sellIn >= 10 then 1
    else if sellIn >= 5 then 2
    else 3
  }

  /** The loop runs ceil((15 - gaps) / 5) times below the horizon and not
      at all from the horizon up. */
  lemma {:induction false} TicketLoopCountClosedForm(gaps: int)
    ensures TicketLoopCount(gaps) == if gaps >= TICKET_HORIZON then 0 else (TICKET_HORIZON + TICKET_GAP - 1 - gaps) / TICKET_GAP
    decreases TICKET_HORIZON - gaps
  {
    if gaps < TICKET_HORIZON {
      TicketLoopCountClosedForm(gaps + TICKET_GAP);
    }
  }

  /** For a sellIn that is not negative the loop count is the tier table. */
  lemma {:induction false} TicketLoopCountTiers(sellIn: int)
    requires sellIn >= 0
    ensures TicketLoopCount(sellIn) == TierGain(sellIn)
    decreases TICKET_HORIZON - sellIn
  {
    if sellIn < TICKET_HORIZON {
      TicketLoopCountTiers(sellIn + TICKET_GAP);
    }
  }

  /** updateSellIn: every category but Sulfuras loses one day. */
  function SellInAfter(c: Category, sellIn: int): int {
    match c
    case Sulfuras => sellIn
    case _ => sellIn - 1
  }

  predicate IsOutdated(sellIn: int) {
    sellIn < 0
  }

  /** updateQuality of each category; `sellIn` is the already updated one. */
  function CategoryQuality(c: Category, sellIn: int, quality: int): int {
    match c
    case Sulfuras => quality
    case Regular => Decreased(quality)
    case Cheese => Increased(quality)
    case Tickets => RepeatIncrease(quality, TicketLoopCount(sellIn))
  }

  /** updateQualityAfterOutdated of each category. */
  function QualityAfterOutdated(c: Category, quality: int): int {
    match c
    case Sulfuras => quality
    case Regular => Decreased(quality)
    case Cheese => Increased(quality)
    case Tickets => MIN_QUALITY
  }

  /** One day of one item. Sulfuras is the one category that never changes;
      every other item loses exactly one day, and one that starts with a
      quality in range keeps it in range. */
  function Tick(c: Category, st: ItemState): (r: ItemState)
    ensures r == st <==> c == Sulfuras
    ensures c != Sulfuras ==> r.sellIn == st.sellIn - 1
    ensures c != Sulfuras && InRange(st.quality) ==> InRange(r.quality)
  {
    var sellIn := SellInAfter(c, st.sellIn);
    var quality := CategoryQuality(c, sellIn, st.quality);
    ItemState(sellIn, if IsOutdated(sellIn) then QualityAfterOutdated(c, quality) else quality)
  }

  /** `n` days of one item. */
  function TickN(c: Category, st: ItemState, n: nat): ItemState {
    if n == 0 then st else Tick(c, TickN(c, st, n - 1))
  }

  /** Regular items lose one point a day, two once the updated sellIn is
      negative, and never go below zero. */
  lemma RegularTick(st: ItemState)
    requires st.quality >= MIN_QUALITY
    ensures Tick(Regular, st) ==
      ItemState(st.sellIn - 1, Max(MIN_QUALITY, st.quality - (if st.sellIn - 1 < 0 then 2 else 1)))
  {
  }

  /** Regular quality never rises; it falls whenever it is above zero. */
  lemma RegularNeverImproves(st: ItemState)
    ensures Tick(Regular, st).quality <= st.quality
    ensures Tick(Regular, st).quality < st.quality <==> st.quality > MIN_QUALITY
  {
  }

  /** Aged Brie gains one point a day, two once the updated sellIn is
      negative, capped at 50; a quality above 50 is left as it is. */
  lemma CheeseTick(st: ItemState)
    ensures st.quality <= MAX_QUALITY ==>
      Tick(Cheese, st) == ItemState(st.sellIn - 1, Min(MAX_QUALITY, st.quality + (if st.sellIn - 1 < 0 then 2 else 1)))
    ensures st.quality > MAX_QUALITY ==> Tick(Cheese, st) == ItemState(st.sellIn - 1, st.quality)
  {
  }

  /** Aged Brie quality never falls; it rises whenever it is below 50. */
  lemma CheeseNeverDegrades(st: ItemState)
    ensures Tick(Cheese, st).quality >= st.quality
    ensures Tick(Cheese, st).quality > st.quality <==> st.quality < MAX_QUALITY
  {
  }

  /** Backstage passes drop to zero once the updated sellIn is negative,
      whatever their quality; otherwise they gain the tier count, capped
      at 50 (nothing at all from 15 days up). */
  lemma TicketsTick(st: ItemState)
    ensures st.sellIn - 1 < 0 ==> Tick(Tickets, st) == ItemState(st.sellIn - 1, MIN_QUALITY)
    ensures st.sellIn - 1 >= 0 && st.quality <= MAX_QUALITY ==>
      Tick(Tickets, st) == ItemState(st.sellIn - 1, Min(MAX_QUALITY, st.quality + TierGain(st.sellIn - 1)))
    ensures st.sellIn - 1 >= 0 && st.quality > MAX_QUALITY ==>
      Tick(Tickets, st) == ItemState(st.sellIn - 1, st.quality)
  {
    if st.sellIn - 1 >= 0 {
      TicketLoopCountTiers(st.sellIn - 1);
    }
  }

  /** A legendary item never changes, however many days pass. */
  lemma {:induction false} SulfurasNeverChanges(st: ItemState, n: nat)
    ensures TickN(Sulfuras, st, n) == st
  {
    if n > 0 {
      SulfurasNeverChanges(st, n - 1);
    }
  }

  /** Any other item loses exactly `n` days in `n` ticks and keeps a
      quality that starts in [0, 50] inside [0, 50]. */
  lemma {:induction false} TickNKeepsBounds(c: Category, st: ItemState, n: nat)
    requires c != Sulfuras
    ensures TickN(c, st, n).sellIn == st.sellIn - n
    ensures InRange(st.quality) ==> InRange(TickN(c, st, n).quality)
  {
    if n > 0 {
      TickNKeepsBounds(c, st, n - 1);
    }
  }

  /** The single-day ticket scenarios of the test suite. Starting at
      sellIn 0 expires the item in that same tick. */
  lemma TicketsScenarios()
    ensures Tick(Tickets, ItemState(10, 50)) == ItemState(9, 50)
    ensures Tick(Tickets, ItemState(0, 10)) == ItemState(-1, 0)
    ensures Tick(Tickets, ItemState(5, 10)) == ItemState(4, 13)
    ensures Tick(Tickets, ItemState(5, 50)) == ItemState(4, 50)
    ensures Tick(Tickets, ItemState(10, 10)) == ItemState(9, 12)
    ensures Tick(Tickets, ItemState(11, 10)) == ItemState(10, 11)
  {
    TicketsTick(ItemState(10, 50));
    TicketsTick(ItemState(0, 10));
    TicketsTick(ItemState(5, 10));
    TicketsTick(ItemState(5, 50));
    TicketsTick(ItemState(10, 10));
    TicketsTick(ItemState(11, 10));
  }

  /** The single-day Aged Brie scenarios of the test suite. */
  lemma CheeseScenarios()
    ensures Tick(Cheese, ItemState(-1, 50)) == ItemState(-2, 50)
    ensures Tick(Cheese, ItemState(10, 49)) == ItemState(9, 50)
    ensures Tick(Cheese, ItemState(-1, 48)) == ItemState(-2, 50)
    ensures Tick(Cheese, ItemState(-1, 49)) == ItemState(-2, 50)
  {
    CheeseTick(ItemState(-1, 50));
    CheeseTick(ItemState(10, 49));
    CheeseTick(ItemState(-1, 48));
    CheeseTick(ItemState(-1, 49));
  }

  /** The single-day regular and Sulfuras scenarios of the test suite.
      Starting at sellIn 0 expires the item in that same tick. */
  lemma RegularAndSulfurasScenarios()
    ensures Tick(Regular, ItemState(0, 0)) == ItemState(-1, 0)
    ensures Tick(Regular, ItemState(10, 0)) == ItemState(9, 0)
    ensures Tick(Regular, ItemState(10, 10)) == ItemState(9, 9)
    ensures Tick(Regular, ItemState(0, 10)) == ItemState(-1, 8)
    ensures Tick(Sulfuras, ItemState(-1, 80)) == ItemState(-1, 80)
    ensures Tick(Sulfuras, ItemState(0, 80)) == ItemState(0, 80)
  {
    RegularTick(ItemState(0, 0));
    RegularTick(ItemState(10, 0));
    RegularTick(ItemState(10, 10));
    RegularTick(ItemState(0, 10));
  }
}
