/** The inventory and its daily update, done in place on the items.

    Each method below mirrors one member of the item wrappers; instead of
    allocating a wrapper per item, the category is passed alongside the
    item. Every method is proved against the pure rules of ItemRules. */
module GildedRose {
  import opened ItemRules

  /** An item: its name never changes, sellIn and quality are updated in
      place. */
  class Item {
    const name: string
    var sellIn: int
    var quality: int

    constructor (name: string, sellIn: int, quality: int)
      ensures this.name == name && this.sellIn == sellIn && this.quality == quality
    {
      this.name := name;
      this.sellIn := sellIn;
      this.quality := quality;
    }
  }

  function StateOf(item: Item): ItemState
    reads item
  {
    ItemState(item.sellIn, item.quality)
  }

  /** Every item but Sulfuras loses one day; quality is not touched. */
  method UpdateSellIn(c: Category, item: Item)
    modifies item
    ensures item.sellIn == SellInAfter(c, old(item.sellIn))
    ensures item.quality == old(item.quality)
  {
    match c
    case Sulfuras =>
    case _ => item.sellIn := item.sellIn - 1;
  }

  method IncreaseQuality(item: Item)
    modifies item
    ensures item.quality == Increased(old(item.quality))
    ensures item.sellIn == old(item.sellIn)
  {
    if item.quality < MAX_QUALITY {
      item.quality := item.quality + DELTA_QUALITY;
    }
  }

  method DecreaseQuality(item: Item)
    modifies item
    ensures item.quality == Decreased(old(item.quality))
    ensures item.sellIn == old(item.sellIn)
  {
    if item.quality > MIN_QUALITY {
      item.quality := item.quality - DELTA_QUALITY;
    }
  }

  /** The ticket loop: one clamped increase for each of sellIn, sellIn + 5,
      sellIn + 10, ... that is below 15. */
  method UpdateTicketsQuality(item: Item)
    modifies item
    ensures item.sellIn == old(item.sellIn)
    ensures item.quality == RepeatIncrease(old(item.quality), TicketLoopCount(item.sellIn))
  {
    var sellInGaps := item.sellIn;
    ghost var done: nat := 0;
    while sellInGaps < TICKET_HORIZON
      invariant item.sellIn == old(item.sellIn)
      invariant done + TicketLoopCount(sellInGaps) == TicketLoopCount(item.sellIn)
      invariant item.quality == RepeatIncrease(old(item.quality), done)
      decreases TICKET_HORIZON - sellInGaps
    {
      IncreaseQuality(item);
      sellInGaps := sellInGaps + TICKET_GAP;
      done := done + 1;
    }
  }

  /** The updateQuality override of each category. */
  method UpdateCategoryQuality(c: Category, item: Item)
    modifies item
    ensures item.sellIn == old(item.sellIn)
    ensures item.quality == CategoryQuality(c, item.sellIn, old(item.quality))
  {
    match c
    case Sulfuras =>
    case Regular => DecreaseQuality(item);
    case Cheese => IncreaseQuality(item);
    case Tickets => UpdateTicketsQuality(item);
  }

  /** The updateQualityAfterOutdated override of each category. */
  method UpdateQualityAfterOutdated(c: Category, item: Item)
    modifies item
    ensures item.sellIn == old(item.sellIn)
    ensures item.quality == QualityAfterOutdated(c, old(item.quality))
  {
    match c
    case Sulfuras =>
    case Regular => DecreaseQuality(item);
    case Cheese => IncreaseQuality(item);
    case Tickets => item.quality := MIN_QUALITY;
  }

  /** One day of one item: sellIn first, then quality, then, if the new
      sellIn is negative, the post-expiry change. */
  method UpdateItemQuality(item: Item)
    modifies item
    ensures StateOf(item) == Tick(Classify(item.name), old(StateOf(item)))
  {
    var c := Classify(item.name);
    UpdateSellIn(c, item);
    UpdateCategoryQuality(c, item);
    if IsOutdated(item.sellIn) {
      UpdateQualityAfterOutdated(c, item);
    }
  }

  /** No item appears twice. */
  predicate Distinct<T(==)>(s: seq<T>) {
    forall i, j :: 0 <= i < j < |s| ==> s[i] != s[j]
  }

  /** In a sequence without repetitions every element occurs exactly once. */
  lemma {:induction false} OccursOnce<T>(s: seq<T>, j: nat)
    requires Distinct(s) && j < |s|
    ensures multiset(s)[s[j]] == 1
  {
    var x := s[j];
    assert s == [s[0]] + s[1..];
    assert Distinct(s[1..]) by {
      forall a, b | 0 <= a < b < |s[1..]| ensures s[1..][a] != s[1..][b] {
        assert s[1..][a] == s[a + 1] && s[1..][b] == s[b + 1];
      }
    }
    if j == 0 {
      assert x !in s[1..] by {
        forall k | 0 <= k < |s[1..]| ensures s[1..][k] != x {
          assert s[1..][k] == s[k + 1];
        }
      }
    } else {
      assert s[1..][j - 1] == x;
      OccursOnce(s[1..], j - 1);
    }
  }

  /** The state of item `x`, starting from `st`, after `forEach` has walked
      the sequence `s`: each entry of `s` that is `x` itself ages it one
      day, and every other entry leaves it alone. */
  ghost function AgedAlong(s: seq<Item>, x: Item, st: ItemState): ItemState
    decreases |s|
  {
    if s == [] then st
    else
      var prev := AgedAlong(s[..|s| - 1], x, st);
      if s[|s| - 1] == x then Tick(Classify(x.name), prev) else prev
  }

  /** Walking a sequence ages an item as many days as it occurs there. */
  lemma {:induction false} AgedAlongOccurrences(s: seq<Item>, x: Item, st: ItemState)
    ensures AgedAlong(s, x, st) == TickN(Classify(x.name), st, multiset(s)[x])
    decreases |s|
  {
    if s != [] {
      var init := s[..|s| - 1];
      assert s == init + [s[|s| - 1]];
      AgedAlongOccurrences(init, x, st);
    }
  }

  /** In a sequence without repetitions, walking it ages each of its items
      exactly one day. */
  lemma AgedOnceWhenDistinct(s: seq<Item>, j: nat, st: ItemState)
    requires Distinct(s) && j < |s|
    ensures AgedAlong(s, s[j], st) == Tick(Classify(s[j].name), st)
  {
    AgedAlongOccurrences(s, s[j], st);
    OccursOnce(s, j);
    var c := Classify(s[j].name);
    assert TickN(c, st, 1) == Tick(c, st);
  }

  /** The inventory. */
  class GildedRose {
    var items: array<Item>

    constructor (items: array<Item>)
      ensures this.items == items
    {
      this.items := items;
    }

    /** One day of the whole inventory: every element of the array is
        updated in place, on its own fields only. The array itself (its
        length, its order, the identity and name of each item) is left
        as it is. An item that appears k times in the array is aged k days;
        in an array without repetitions every item is aged exactly one. */
    method UpdateQuality()
      modifies items[..]
      ensures forall j :: 0 <= j < items.Length ==>
        StateOf(items[j]) == TickN(Classify(items[j].name), old(StateOf(items[j])), multiset(items[..])[items[j]])
      ensures Distinct(items[..]) ==> forall j :: 0 <= j < items.Length ==>
        StateOf(items[j]) == Tick(Classify(items[j].name), old(StateOf(items[j])))
    {
      var i := 0;
      while i < items.Length
        invariant 0 <= i <= items.Length
        invariant forall j :: 0 <= j < items.Length ==>
          StateOf(items[j]) == AgedAlong(items[..i], items[j], old(StateOf(items[j])))
      {
        var item := items[i];
        label Before:
        UpdateItemQuality(item);
        assert items[..i + 1][..i] == items[..i];
        forall j | 0 <= j < items.Length
          ensures StateOf(items[j]) == AgedAlong(items[..i + 1], items[j], old(StateOf(items[j])))
        {
          if items[j] != item {
            assert StateOf(items[j]) == old@Before(StateOf(items[j]));
          }
        }
        i := i + 1;
      }
      assert items[..] == items[..items.Length];
      forall j | 0 <= j < items.Length
        ensures StateOf(items[j]) == TickN(Classify(items[j].name), old(StateOf(items[j])), multiset(items[..])[items[j]])
        ensures Distinct(items[..]) ==> StateOf(items[j]) == Tick(Classify(items[j].name), old(StateOf(items[j])))
      {
        AgedAlongOccurrences(items[..], items[j], old(StateOf(items[j])));
        if Distinct(items[..]) {
          AgedOnceWhenDistinct(items[..], j, old(StateOf(items[j])));
        }
      }
    }
  }

  /** The test suite's sellIn scenario for a regular item, through the
      inventory: one update takes sellIn from 10 to 9. */
  method RegularSellInScenario() returns (oldSellIn: int, newSellIn: int)
    ensures newSellIn == oldSellIn - 1
  {
    var regular := new Item("foo", 10, 10);
    var inventory := new Item[1](_ => regular);
    var shop := new GildedRose(inventory);
    assert shop.items[..] == [regular] && Distinct(shop.items[..]);
    oldSellIn := regular.sellIn;
    shop.UpdateQuality();
    assert shop.items[0] == regular && Classify(regular.name) == Regular;
    assert StateOf(regular) == Tick(Regular, ItemState(10, 10));
    RegularAndSulfurasScenarios();
    newSellIn := regular.sellIn;
  }

  /** The test suite's sellIn scenario for Sulfuras, through the inventory:
      one update leaves sellIn as it was. */
  method SulfurasSellInScenario() returns (oldSellIn: int, newSellIn: int)
    ensures newSellIn == oldSellIn
  {
    var sulfuras := new Item(SULFURAS, 0, 80);
    var inventory := new Item[1](_ => sulfuras);
    var shop := new GildedRose(inventory);
    assert shop.items[..] == [sulfuras] && Distinct(shop.items[..]);
    oldSellIn := sulfuras.sellIn;
    shop.UpdateQuality();
    assert shop.items[0] == sulfuras && Classify(sulfuras.name) == Sulfuras;
    assert StateOf(sulfuras) == Tick(Sulfuras, ItemState(0, 80));
    SulfurasNeverChanges(ItemState(0, 80), 1);
    newSellIn := sulfuras.sellIn;
  }
}
