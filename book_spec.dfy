/**
 * What applying the levels of a "partial" or "update" message does to one
 * side of the book (src/bin/ftx-hyperbook.rs, lines 40-110), as functions on
 * maps, with the lemmas that say which size each price ends up with.
 */
module BookSpec {
  import opened Wrappers
  import opened Ftx

  /** One side of the book: price to resting size (a BTreeMap in the source). */
  type Side = map<Decimal, Decimal>

  datatype Book = Book(bids: Side, asks: Side)

  function Get(side: Side, price: Decimal): Option<Decimal>
  {
    if price in side then Some(side[price]) else None
  }

  /** What a level leaves at its own price: nothing for size zero, else its size. */
  function Resting(level: Level): Option<Decimal>
  {
    if level.size == 0.0 then None else Some(level.size)
  }

  /**
   * One level: a zero size removes the price (a no-op when it is absent), any
   * other size inserts it or overwrites the size already there.
   */
  function ApplyLevel(side: Side, level: Level): (r: Side)
    ensures Get(r, level.price) == Resting(level)
    ensures forall p :: p != level.price ==> Get(r, p) == Get(side, p)
    ensures level.size == 0.0 && level.price !in side ==> r == side
  {
    if level.size == 0.0 then side - {level.price} else side[level.price := level.size]
  }

  /** The prices a list of levels names. */
  function Prices(levels: seq<Level>): set<Decimal>
  {
    set level | level in levels :: level.price
  }

  /**
   * The levels applied one after another, first to last. No price appears
   * that neither the side nor the levels name.
   */
  function ApplyLevels(side: Side, levels: seq<Level>): (r: Side)
    ensures r.Keys <= side.Keys + Prices(levels)
  {
    if |levels| == 0 then side
    else
      var prefix := levels[..|levels| - 1];
      assert forall level :: level in prefix ==> level in levels;
      ApplyLevel(ApplyLevels(side, prefix), levels[|levels| - 1])
  }

  /** The index of the last level listed for a price, if any. */
  function LastFor(levels: seq<Level>, price: Decimal): (r: Option<nat>)
    ensures r.Some? ==> r.value < |levels| && levels[r.value].price == price
    ensures forall j :: (if r.Some? then r.value + 1 else 0) <= j < |levels| ==> levels[j].price != price
  {
    if |levels| == 0 then None
    else if levels[|levels| - 1].price == price then Some(|levels| - 1)
    else LastFor(levels[..|levels| - 1], price)
  }

  /** The index of the first level listed for a price, if any. */
  function FirstFor(levels: seq<Level>, price: Decimal): (r: Option<nat>)
    ensures r.Some? ==> r.value < |levels| && levels[r.value].price == price
    ensures forall j :: 0 <= j < (if r.Some? then r.value else |levels|) ==> levels[j].price != price
  {
    if |levels| == 0 then None
    else if levels[0].price == price then Some(0)
    else
      match FirstFor(levels[1..], price)
      case None => None
      case Some(k) => Some(k + 1)
  }

  function Reversed<T>(s: seq<T>): (r: seq<T>)
    ensures |r| == |s|
  {
    if |s| == 0 then [] else Reversed(s[1..]) + [s[0]]
  }

  /** The reversal of a list holds the same elements, as many times each. */
  lemma {:induction false} ReversedSameElements<T>(s: seq<T>)
    ensures multiset(Reversed(s)) == multiset(s)
  {
    if |s| > 0 {
      ReversedSameElements(s[1..]);
      assert s == [s[0]] + s[1..];
    }
  }

  /**
   * Bids are reversed before they are applied; asks are applied as listed.
   * Each side gains only prices that its own levels name.
   */
  function ApplySnapshot(book: Book, data: LobSnapshot): (r: Book)
    ensures r.bids.Keys <= book.bids.Keys + Prices(data.bids)
    ensures r.asks.Keys <= book.asks.Keys + Prices(data.asks)
  {
    var reversed := Reversed(data.bids);
    ReversedSameElements(data.bids);
    assert forall level :: level in reversed <==> level in data.bids by {
      assert forall level :: level in reversed <==> level in multiset(reversed);
    }
    assert Prices(reversed) == Prices(data.bids);
    Book(ApplyLevels(book.bids, reversed), ApplyLevels(book.asks, data.asks))
  }

  ghost predicate NoZeroSize(side: Side)
  {
    forall p :: p in side ==> side[p] != 0.0
  }

  predicate DistinctPrices(levels: seq<Level>)
  {
    forall i, j :: 0 <= i < j < |levels| ==> levels[i].price != levels[j].price
  }

  // Lemmas

  /**
   * After a run of levels, a price holds what the last level listed for it
   * leaves, or what it held before when no level names it.
   */
  lemma {:induction false} ApplyLevelsAt(side: Side, levels: seq<Level>, price: Decimal)
    ensures Get(ApplyLevels(side, levels), price)
            == match LastFor(levels, price)
               case None => Get(side, price)
               case Some(k) => Resting(levels[k])
  {
    if |levels| > 0 {
      ApplyLevelsAt(side, levels[..|levels| - 1], price);
    }
  }

  /** A price no level names keeps its size, or stays absent. */
  lemma UnmentionedPriceUnchanged(side: Side, levels: seq<Level>, price: Decimal)
    requires forall i :: 0 <= i < |levels| ==> levels[i].price != price
    ensures Get(ApplyLevels(side, levels), price) == Get(side, price)
  {
    ApplyLevelsAt(side, levels, price);
  }

  /** Zero sizes only ever remove, so a side without zero sizes keeps none. */
  lemma {:induction false} ApplyLevelsKeepsNoZero(side: Side, levels: seq<Level>)
    requires NoZeroSize(side)
    ensures NoZeroSize(ApplyLevels(side, levels))
  {
    if |levels| > 0 {
      ApplyLevelsKeepsNoZero(side, levels[..|levels| - 1]);
      var before := ApplyLevels(side, levels[..|levels| - 1]);
      var after := ApplyLevels(side, levels);
      forall p | p in after ensures after[p] != 0.0 {
        assert Get(after, p) == Some(after[p]);
        if p != levels[|levels| - 1].price {
          assert Get(before, p) == Some(after[p]);
        }
      }
    }
  }

  lemma {:induction false} ReversedAt<T>(s: seq<T>, k: nat)
    requires k < |s|
    ensures Reversed(s)[k] == s[|s| - 1 - k]
  {
    if k < |s| - 1 {
      ReversedAt(s[1..], k);
    }
  }

  /** The last level for a price in the reversed list is the first one in the original. */
  lemma {:induction false} LastForReversed(levels: seq<Level>, price: Decimal)
    ensures LastFor(Reversed(levels), price)
            == match FirstFor(levels, price)
               case None => None
               case Some(k) => Some(|levels| - 1 - k)
  {
    if |levels| > 0 {
      var r := Reversed(levels);
      assert r[..|r| - 1] == Reversed(levels[1..]);
      assert r[|r| - 1] == levels[0];
      LastForReversed(levels[1..], price);
    }
  }

  /**
   * A message's effect on the book, price by price: a bid price ends with what
   * its FIRST listed bid level leaves, an ask price with what its LAST listed
   * ask level leaves; prices the message does not name keep their sizes, and
   * each side depends only on its own levels.
   */
  lemma ApplySnapshotAt(book: Book, data: LobSnapshot, price: Decimal)
    ensures Get(ApplySnapshot(book, data).bids, price)
            == match FirstFor(data.bids, price)
               case None => Get(book.bids, price)
               case Some(k) => Resting(data.bids[k])
    ensures Get(ApplySnapshot(book, data).asks, price)
            == match LastFor(data.asks, price)
               case None => Get(book.asks, price)
               case Some(k) => Resting(data.asks[k])
  {
    assert ApplySnapshot(book, data).bids == ApplyLevels(book.bids, Reversed(data.bids));
    ReversedBidsAt(book.bids, data.bids, price);
    ApplyLevelsAt(book.asks, data.asks, price);
  }

  /** Applying the reversed bid list, price by price: the first-listed bid level wins. */
  lemma ReversedBidsAt(side: Side, bids: seq<Level>, price: Decimal)
    ensures Get(ApplyLevels(side, Reversed(bids)), price)
            == match FirstFor(bids, price)
               case None => Get(side, price)
               case Some(k) => Resting(bids[k])
  {
    ApplyLevelsAt(side, Reversed(bids), price);
    LastForReversed(bids, price);
    match FirstFor(bids, price) {
      case None =>
      case Some(k) => ReversedAt(bids, |bids| - 1 - k);
    }
  }

  lemma ApplySnapshotKeepsNoZero(book: Book, data: LobSnapshot)
    requires NoZeroSize(book.bids) && NoZeroSize(book.asks)
    ensures NoZeroSize(ApplySnapshot(book, data).bids) && NoZeroSize(ApplySnapshot(book, data).asks)
  {
    ApplyLevelsKeepsNoZero(book.bids, Reversed(data.bids));
    ApplyLevelsKeepsNoZero(book.asks, data.asks);
  }

  lemma SidesEqualByPrice(a: Side, b: Side)
    requires forall p :: Get(a, p) == Get(b, p)
    ensures a == b
  {
    forall p | p in a ensures p in b && a[p] == b[p] {
      assert Get(a, p) == Get(b, p);
    }
    forall p | p in b ensures p in a {
      assert Get(a, p) == Get(b, p);
    }
  }

  /** With pairwise distinct prices, the order in which levels are applied does not matter. */
  lemma ReversalImmaterialWhenDistinct(side: Side, levels: seq<Level>)
    requires DistinctPrices(levels)
    ensures ApplyLevels(side, Reversed(levels)) == ApplyLevels(side, levels)
  {
    forall p ensures Get(ApplyLevels(side, Reversed(levels)), p) == Get(ApplyLevels(side, levels), p) {
      ApplyLevelsAt(side, Reversed(levels), p);
      LastForReversed(levels, p);
      ApplyLevelsAt(side, levels, p);
      match FirstFor(levels, p)
      case None =>
      case Some(k) =>
        ReversedAt(levels, |levels| - 1 - k);
        assert LastFor(levels, p) == Some(k);
    }
    SidesEqualByPrice(ApplyLevels(side, Reversed(levels)), ApplyLevels(side, levels));
  }

  /** With a repeated price the order does matter: the reversed bid list keeps the first size. */
  lemma ReversalMattersForRepeatedPrice()
    ensures ApplyLevels(map[], Reversed([Level(100.0, 2.0), Level(100.0, 3.0)])) == map[100.0 := 2.0]
    ensures ApplyLevels(map[], [Level(100.0, 2.0), Level(100.0, 3.0)]) == map[100.0 := 3.0]
  {
    var levels := [Level(100.0, 2.0), Level(100.0, 3.0)];
    assert Reversed(levels) == [Level(100.0, 3.0), Level(100.0, 2.0)] by {
      assert Reversed(levels[1..]) == [Level(100.0, 3.0)];
    }
    assert levels[..1] == [Level(100.0, 2.0)];
    assert Reversed(levels)[..1] == [Level(100.0, 3.0)];
  }

  // The two messages of a short session, worked through level by level.

  lemma ScenarioPartialBids(bids: seq<Level>)
    requires bids == [Level(100.0, 2.0), Level(99.0, 1.0)]
    ensures ApplyLevels(map[], Reversed(bids)) == map[99.0 := 1.0, 100.0 := 2.0]
  {
    var r := Reversed(bids);
    assert r == [Level(99.0, 1.0), Level(100.0, 2.0)] by {
      assert Reversed(bids[1..]) == [Level(99.0, 1.0)];
    }
    assert r[..1] == [Level(99.0, 1.0)] && r[..1][..0] == [];
    assert ApplyLevels(map[], r[..1]) == map[99.0 := 1.0];
    assert ApplyLevels(map[], r) == ApplyLevel(map[99.0 := 1.0], r[1]);
  }

  lemma ScenarioPartial(data: LobSnapshot)
    requires data.bids == [Level(100.0, 2.0), Level(99.0, 1.0)] && data.asks == [Level(101.0, 3.0)]
    ensures ApplySnapshot(Book(map[], map[]), data) == Book(map[99.0 := 1.0, 100.0 := 2.0], map[101.0 := 3.0])
  {
    ScenarioPartialBids(data.bids);
    assert data.asks[..0] == [];
    assert ApplyLevels(map[], data.asks) == ApplyLevel(map[], data.asks[0]);
  }

  lemma ScenarioUpdateAsks(asks: seq<Level>)
    requires asks == [Level(101.0, 1.0), Level(102.0, 5.0)]
    ensures ApplyLevels(map[101.0 := 3.0], asks) == map[101.0 := 1.0, 102.0 := 5.0]
  {
    assert asks[..1] == [Level(101.0, 1.0)] && asks[..1][..0] == [];
    assert ApplyLevels(map[101.0 := 3.0], asks[..1]) == map[101.0 := 1.0];
    assert ApplyLevels(map[101.0 := 3.0], asks) == ApplyLevel(map[101.0 := 1.0], asks[1]);
  }

  lemma ScenarioUpdate(data: LobSnapshot)
    requires data.bids == [Level(100.0, 0.0)] && data.asks == [Level(101.0, 1.0), Level(102.0, 5.0)]
    ensures ApplySnapshot(Book(map[99.0 := 1.0, 100.0 := 2.0], map[101.0 := 3.0]), data)
            == Book(map[99.0 := 1.0], map[101.0 := 1.0, 102.0 := 5.0])
  {
    assert Reversed(data.bids) == data.bids;
    assert data.bids[..0] == [];
    assert map[99.0 := 1.0, 100.0 := 2.0] - {100.0} == map[99.0 := 1.0];
    assert ApplyLevels(map[99.0 := 1.0, 100.0 := 2.0], data.bids)
        == ApplyLevel(map[99.0 := 1.0, 100.0 := 2.0], data.bids[0]);
    ScenarioUpdateAsks(data.asks);
  }
}
