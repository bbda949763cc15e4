/**
 * The ingestion side of the order-book binary (src/bin/ftx-hyperbook.rs): the
 * shared LimitOrderBook, the handler that dispatches each frame on its "type"
 * tag and applies the bid and ask levels of "partial" and "update" messages in
 * place, and the loop that feeds it frames in arrival order until a frame panics.
 */
module Hyperbook {
  import opened Wrappers
  import opened Ftx
  import opened BookSpec

  /**
   * A frame as the JSON library hands it over. `tag` is the "type" field when it
   * is present and a string; `subscribed` and `book` are the results of decoding
   * the frame as FTXSubscribed and as FTXPartial / FTXUpdate (None when that
   * decoding fails).
   */
  datatype Frame = Frame(tag: Option<string>, subscribed: Option<Subscribed>, book: Option<BookMessage>)

  /** The `unwrap` or `panic!` that ends the ingestion task. */
  datatype Panic =
    | MissingType
    | Undecodable
    | UnknownType(tag: string)

  datatype Outcome = Continue | Panicked(reason: Panic)

  /**
   * What handling one frame does: the outcome and the book afterwards. A
   * decodable "partial" or "update" continues with its levels applied. A
   * missing "type" panics, and so does a "subscribed", "partial" or "update"
   * frame that does not decode; a decodable "subscribed" frame continues. A
   * frame that panics leaves the book as it was, and so does every frame that
   * is neither a "partial" nor an "update".
   */
  function Step(book: Book, frame: Frame): (r: (Outcome, Book))
    ensures IsBookFrame(frame) && frame.book.Some? ==> r == (Continue, ApplySnapshot(book, frame.book.value.data))
    ensures frame.tag.None? ==> r.0 == Panicked(MissingType)
    ensures (IsBookFrame(frame) && frame.book.None?) || (frame.tag == Some("subscribed") && frame.subscribed.None?)
            ==> r.0 == Panicked(Undecodable)
    ensures frame.tag == Some("subscribed") && frame.subscribed.Some? ==> r.0 == Continue
    ensures r.0.Panicked? ==> r.1 == book
    ensures !IsBookFrame(frame) ==> r.1 == book
    ensures r.1 == book || (frame.book.Some? && r.1 == ApplySnapshot(book, frame.book.value.data))
  {
    match frame.tag
    case None => (Panicked(MissingType), book)
    case Some(tag) =>
      if tag == "subscribed" then
        if frame.subscribed.Some? then (Continue, book) else (Panicked(Undecodable), book)
      else if tag == "partial" || tag == "update" then
        match frame.book
        case Some(m) => (Continue, ApplySnapshot(book, m.data))
        case None => (Panicked(Undecodable), book)
      else (Panicked(UnknownType(tag)), book)
  }

  /** A frame that carries book levels: a "partial" or an "update". */
  predicate IsBookFrame(frame: Frame)
  {
    frame.tag == Some("partial") || frame.tag == Some("update")
  }

  predicate NoBookFrames(frames: seq<Frame>)
  {
    forall i :: 0 <= i < |frames| ==> !IsBookFrame(frames[i])
  }

  /**
   * Frames handled in order; a panic ends the task, so later frames are never
   * handled. A stream with no "partial" or "update" frame leaves the book as it was.
   */
  function Replay(book: Book, frames: seq<Frame>): (r: (Outcome, Book))
    ensures NoBookFrames(frames) ==> r.1 == book
    decreases |frames|
  {
    if |frames| == 0 then (Continue, book)
    else
      var (outcome, next) := Step(book, frames[0]);
      if outcome.Panicked? then (outcome, next) else Replay(next, frames[1..])
  }

  /** Reverses an array in place, as `Vec::reverse` does. */
  method ReverseInPlace(a: array<Level>)
    modifies a
    ensures a[..] == Reversed(old(a[..]))
  {
    var lo, hi := 0, a.Length;
    while lo + 1 < hi
      invariant 0 <= lo <= hi <= a.Length && lo + hi == a.Length
      invariant forall k :: 0 <= k < lo ==> a[k] == old(a[a.Length - 1 - k]) && a[a.Length - 1 - k] == old(a[k])
      invariant forall k :: lo <= k < hi ==> a[k] == old(a[k])
    {
      a[lo], a[hi - 1] := a[hi - 1], a[lo];
      lo, hi := lo + 1, hi - 1;
    }
    forall k | 0 <= k < a.Length ensures a[..][k] == Reversed(old(a[..]))[k] {
      ReversedAt(old(a[..]), k);
    }
  }

  /** The bid levels of a decoded message, moved into a mutable vector of their own. */
  method LevelArray(levels: seq<Level>) returns (a: array<Level>)
    ensures fresh(a) && a[..] == levels
  {
    a := new Level[|levels|](i requires 0 <= i < |levels| => levels[i]);
  }

  class LimitOrderBook {
    var bids: Side
    var asks: Side

    constructor ()
      ensures bids == map[] && asks == map[]
    {
      bids, asks := map[], map[];
    }

    function State(): Book
      reads this
    {
      Book(bids, asks)
    }

    /** The level loops of the "partial" and "update" branches (both identical). */
    method ApplyData(data: LobSnapshot)
      modifies this
      ensures State() == ApplySnapshot(old(State()), data)
    {
      var levels := LevelArray(data.bids);
      ReverseInPlace(levels);
      ApplyBids(levels);
      ApplyAsks(data.asks);
    }

    /** The loop over the reversed bids: a zero size removes the price, any other size is inserted. */
    method ApplyBids(levels: array<Level>)
      modifies this
      ensures bids == ApplyLevels(old(bids), levels[..]) && asks == old(asks)
    {
      for i := 0 to levels.Length
        invariant bids == ApplyLevels(old(bids), levels[..i])
        invariant asks == old(asks)
      {
        var bid := levels[i];
        if bid.size == 0.0 {
          bids := bids - {bid.price};
        } else {
          bids := bids[bid.price := bid.size];
        }
        assert levels[..i + 1][..i] == levels[..i];
      }
      assert levels[..levels.Length] == levels[..];
    }

    /** The loop over the asks, in the order received: the same rule on the other side. */
    method ApplyAsks(levels: seq<Level>)
      modifies this
      ensures asks == ApplyLevels(old(asks), levels) && bids == old(bids)
    {
      for i := 0 to |levels|
        invariant asks == ApplyLevels(old(asks), levels[..i])
        invariant bids == old(bids)
      {
        var ask := levels[i];
        if ask.size == 0.0 {
          asks := asks - {ask.price};
        } else {
          asks := asks[ask.price := ask.size];
        }
        assert levels[..i + 1][..i] == levels[..i];
      }
      assert levels[..|levels|] == levels;
    }

    /** The body of the per-frame closure: dispatch on the "type" tag. */
    method Handle(frame: Frame) returns (outcome: Outcome)
      modifies this
      ensures (outcome, State()) == Step(old(State()), frame)
      ensures NoZeroSize(old(bids)) && NoZeroSize(old(asks)) ==> NoZeroSize(bids) && NoZeroSize(asks)
    {
      match frame.tag
      case None =>
        outcome := Panicked(MissingType);
      case Some(tag) =>
        if tag == "subscribed" {
          outcome := if frame.subscribed.Some? then Continue else Panicked(Undecodable);
        } else if tag == "partial" || tag == "update" {
          match frame.book
          case Some(m) =>
            ApplyData(m.data);
            outcome := Continue;
            if NoZeroSize(old(bids)) && NoZeroSize(old(asks)) {
              ApplySnapshotKeepsNoZero(old(State()), m.data);
            }
          case None =>
            outcome := Panicked(Undecodable);
        } else {
          outcome := Panicked(UnknownType(tag));
        }
    }
  }

  /** Handling the stream from frame i on starts with frame i. */
  lemma ReplayFrom(book: Book, frames: seq<Frame>, i: nat)
    requires i < |frames|
    ensures Replay(book, frames[i..])
            == if Step(book, frames[i]).0.Panicked? then Step(book, frames[i])
               else Replay(Step(book, frames[i]).1, frames[i + 1..])
  {
    assert frames[i..][0] == frames[i] && frames[i..][1..] == frames[i + 1..];
  }

  /** The `for_each` over the socket's frames, in arrival order, until one panics. */
  method Ingest(lob: LimitOrderBook, frames: seq<Frame>) returns (outcome: Outcome)
    modifies lob
    ensures (outcome, lob.State()) == Replay(old(lob.State()), frames)
    ensures NoZeroSize(old(lob.bids)) && NoZeroSize(old(lob.asks)) ==> NoZeroSize(lob.bids) && NoZeroSize(lob.asks)
  {
    ghost var start := lob.State();
    var i := 0;
    outcome := Continue;
    while i < |frames|
      invariant 0 <= i <= |frames|
      invariant outcome == Continue
      invariant Replay(start, frames) == Replay(lob.State(), frames[i..])
    {
      ReplayFrom(lob.State(), frames, i);
      outcome := lob.Handle(frames[i]);
      if outcome.Panicked? {
        ReplayKeepsNoZeroIfNone(start, frames);
        return;
      }
      i := i + 1;
    }
    ReplayKeepsNoZeroIfNone(start, frames);
  }

  // Lemmas

  /** A "partial" has exactly the effect of an "update" with the same levels: it merges. */
  lemma PartialActsAsUpdate(book: Book, subscribed: Option<Subscribed>, m: Option<BookMessage>)
    ensures Step(book, Frame(Some("partial"), subscribed, m)) == Step(book, Frame(Some("update"), subscribed, m))
  {
    assert "partial"[0] != "subscribed"[0] && "update"[0] != "subscribed"[0];
  }

  /**
   * A "partial" does not replace the book: every price its levels do not name
   * keeps its size on both sides.
   */
  lemma PartialKeepsUnnamedPrices(book: Book, m: BookMessage, price: Decimal)
    requires forall i :: 0 <= i < |m.data.bids| ==> m.data.bids[i].price != price
    requires forall i :: 0 <= i < |m.data.asks| ==> m.data.asks[i].price != price
    ensures Step(book, Frame(Some("partial"), None, Some(m))).0 == Continue
    ensures Get(Step(book, Frame(Some("partial"), None, Some(m))).1.bids, price) == Get(book.bids, price)
    ensures Get(Step(book, Frame(Some("partial"), None, Some(m))).1.asks, price) == Get(book.asks, price)
  {
    ApplySnapshotAt(book, m.data, price);
  }

  /** A tag other than the three known ones panics, naming the tag, and leaves the book as it was. */
  lemma UnknownTagPanics(book: Book, frame: Frame, tag: string)
    requires frame.tag == Some(tag) && tag != "subscribed" && tag != "partial" && tag != "update"
    ensures Step(book, frame) == (Panicked(UnknownType(tag)), book)
  {
  }

  /** Frames after a panicking one are never handled. */
  lemma FramesAfterPanicIgnored(book: Book, frame: Frame, rest: seq<Frame>)
    requires Step(book, frame).0.Panicked?
    ensures Replay(book, [frame] + rest) == (Step(book, frame).0, book)
  {
    assert ([frame] + rest)[0] == frame;
  }

  /**
   * A panic anywhere in the stream ends it: when the frames before it all
   * continue, the outcome is that panic, the book is the one those frames
   * left, and no frame after it is handled.
   */
  lemma {:induction false} PanicAnywhereStops(book: Book, prefix: seq<Frame>, frame: Frame, rest: seq<Frame>)
    requires Replay(book, prefix).0 == Continue
    requires Step(Replay(book, prefix).1, frame).0.Panicked?
    ensures Replay(book, prefix + [frame] + rest)
            == (Step(Replay(book, prefix).1, frame).0, Replay(book, prefix).1)
    decreases |prefix|
  {
    if |prefix| == 0 {
      assert prefix + [frame] + rest == [frame] + rest;
      FramesAfterPanicIgnored(book, frame, rest);
    } else {
      var frames := prefix + [frame] + rest;
      assert frames[0] == prefix[0];
      assert frames[1..] == prefix[1..] + [frame] + rest;
      PanicAnywhereStops(Step(book, prefix[0]).1, prefix[1..], frame, rest);
    }
  }

  /** No sequence of frames ever leaves a zero size resting on either side. */
  lemma {:induction false} ReplayKeepsNoZero(book: Book, frames: seq<Frame>)
    requires NoZeroSize(book.bids) && NoZeroSize(book.asks)
    ensures NoZeroSize(Replay(book, frames).1.bids) && NoZeroSize(Replay(book, frames).1.asks)
    decreases |frames|
  {
    if |frames| > 0 {
      var (outcome, next) := Step(book, frames[0]);
      if frames[0].book.Some? {
        ApplySnapshotKeepsNoZero(book, frames[0].book.value.data);
      }
      if !outcome.Panicked? {
        ReplayKeepsNoZero(next, frames[1..]);
      }
    }
  }

  /** `ReplayKeepsNoZero` for any starting book, as the implication `Ingest` promises. */
  lemma ReplayKeepsNoZeroIfNone(book: Book, frames: seq<Frame>)
    ensures NoZeroSize(book.bids) && NoZeroSize(book.asks)
            ==> NoZeroSize(Replay(book, frames).1.bids) && NoZeroSize(Replay(book, frames).1.asks)
  {
    if NoZeroSize(book.bids) && NoZeroSize(book.asks) {
      ReplayKeepsNoZero(book, frames);
    }
  }

  lemma ScenarioPartialStep(partial: BookMessage)
    requires partial.data.bids == [Level(100.0, 2.0), Level(99.0, 1.0)] && partial.data.asks == [Level(101.0, 3.0)]
    ensures Step(Book(map[], map[]), Frame(Some("partial"), None, Some(partial)))
            == (Continue, Book(map[99.0 := 1.0, 100.0 := 2.0], map[101.0 := 3.0]))
  {
    assert "partial"[0] != "subscribed"[0];
    ScenarioPartial(partial.data);
  }

  lemma ScenarioUpdateStep(update: BookMessage)
    requires update.data.bids == [Level(100.0, 0.0)] && update.data.asks == [Level(101.0, 1.0), Level(102.0, 5.0)]
    ensures Step(Book(map[99.0 := 1.0, 100.0 := 2.0], map[101.0 := 3.0]), Frame(Some("update"), None, Some(update)))
            == (Continue, Book(map[99.0 := 1.0], map[101.0 := 1.0, 102.0 := 5.0]))
  {
    assert "update"[0] != "subscribed"[0];
    ScenarioUpdate(update.data);
  }

  /**
   * An example session: an empty book, a "partial", then an "update" that
   * removes bid 100, changes ask 101 and adds ask 102.
   */
  lemma SnapshotThenUpdate(partial: BookMessage, update: BookMessage)
    requires partial.data.bids == [Level(100.0, 2.0), Level(99.0, 1.0)] && partial.data.asks == [Level(101.0, 3.0)]
    requires update.data.bids == [Level(100.0, 0.0)] && update.data.asks == [Level(101.0, 1.0), Level(102.0, 5.0)]
    ensures Replay(Book(map[], map[]), [Frame(Some("partial"), None, Some(partial)), Frame(Some("update"), None, Some(update))])
            == (Continue, Book(map[99.0 := 1.0], map[101.0 := 1.0, 102.0 := 5.0]))
  {
    var first := Frame(Some("partial"), None, Some(partial));
    var second := Frame(Some("update"), None, Some(update));
    var book1 := Book(map[99.0 := 1.0, 100.0 := 2.0], map[101.0 := 3.0]);
    var book2 := Book(map[99.0 := 1.0], map[101.0 := 1.0, 102.0 := 5.0]);
    ScenarioPartialStep(partial);
    ScenarioUpdateStep(update);
    assert Replay(book1, [second]) == (Continue, book2) by {
      assert [second][1..] == [];
    }
    assert [first, second][1..] == [second];
  }
}
