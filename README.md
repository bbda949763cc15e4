# hyperbook: the FTX order-book mirror, modelled in Dafny

hyperbook keeps a local copy of the FTX exchange's BTC/USD limit order book.
It subscribes to the `orderbook` channel, then applies each `partial` and
`update` message it receives to a `LimitOrderBook`: two ordered maps from
price to size, one for bids and one for asks. For every level of a message, a
size of zero removes that price from its side, and any other size inserts the
price or overwrites its size. The bid list of each message is reversed before
it is applied.

This project models that applier and the outbound message serialiser:

- `wrappers.dfy`: module `Wrappers`, an `Option` type.
- `ftx.dfy`: module `Ftx` (src/ftx.rs). It holds the operation, channel and message enums with their text rendering, the `subscribe_channel` request, and the shapes of inbound book messages. `ParseMessage` and `SplitMarket` read a rendered request and a market name back. They are the inverses the rendering lemmas are stated against.
- `book_spec.dfy`: module `BookSpec`. It defines, as functions on maps, what one level and a run of levels do to one side of the book, and what a whole message does to both sides. Its lemmas say, price by price, what each side holds afterwards.
- `hyperbook.dfy`: module `Hyperbook` (src/bin/ftx-hyperbook.rs). `LimitOrderBook` is a class whose `bids` and `asks` map fields are updated in place. `ReverseInPlace` reverses the bid levels held in a fresh array. `Handle` dispatches one frame on its type tag. `Ingest` feeds frames to `Handle` in arrival order until one panics. Each method is proved against a function: `ReverseInPlace` against `Reversed`, `ApplyBids` and `ApplyAsks` against `ApplyLevels`, `ApplyData` against `ApplySnapshot`, `Handle` against `Step`, and `Ingest` against `Replay`.

Prices and sizes are `rust_decimal::Decimal`, which is exact and compares by
numeric value. They are modelled as `real`, so the test against
`Decimal::from_f64(0.0)` is the test `size == 0.0`.

The model follows the code in four places where an order-book mirror would
usually do more:

- A `partial` message is merged into the book exactly as an `update` is. The code's two branches are identical, so a snapshot does not replace the book (`PartialActsAsUpdate`, `PartialKeepsUnnamedPrices`).
- No crossed-book check is made. The checksum is parsed but never compared.
- Reversing the bid list is not cosmetic. When one message lists a bid price twice, the first-listed bid level wins, while for asks the last-listed level wins (`ApplySnapshotAt`, `ReversalMattersForRepeatedPrice`). So the reversal changes what a bid price ends up with exactly when the first-listed and the last-listed bid levels for that price leave different entries (`ApplySnapshotAt` with `ApplyLevelsAt`). It never matters when the bid prices are distinct (`ReversalImmaterialWhenDistinct`); `ReversalMattersForRepeatedPrice` is one case where it does.
- Nothing in the code rejects negative sizes. Any non-zero size is stored.

## Model

| member | source | states |
|---|---|---|
| `Ftx.OperationText` | src/ftx.rs:12-18 | an operation's name is a non-empty lower-case word, so it needs no escaping inside its quoted field; `OperationTextInjective` shows the two names differ |
| `Ftx.ChannelText` | src/ftx.rs:26-33 | a channel's name is a non-empty lower-case word, so it needs no escaping inside its quoted field; `ChannelTextInjective` shows the three names differ |
| `Ftx.MessageText` | src/ftx.rs:44-62 | every rendered message opens with `{"op":"` and ends with `}`; the market is spliced in unescaped, as in the source, so the text is JSON carrying that market only when the market needs no JSON escaping (no quote, backslash or control character); otherwise it is invalid JSON, or valid JSON that says something else |
| `Ftx.OperationTextInjective` | src/ftx.rs:12-18 | `Subscribe` and `Unsubscribe` render to different names |
| `Ftx.PrefixFreeOperation` | src/ftx.rs:12-18 | an operation name followed by any text reads back as that operation and that text: neither name is a prefix of the other |
| `Ftx.ChannelTextInjective` | src/ftx.rs:26-33 | the three channels render to three different names |
| `Ftx.PrefixFreeChannel` | src/ftx.rs:26-33 | a channel name followed by any text reads back as that channel and that text |
| `Ftx.PingRendering` | src/ftx.rs:47 | the ping renders as exactly `{"op":"ping"}` and reads back as the ping |
| `Ftx.RequestRoundTrip` | src/ftx.rs:48-58 | a request's text, with op, channel and market in that order, reads back as the same request whatever the market string holds |
| `Ftx.MessageRoundTrip` | src/ftx.rs:44-62 | reading back any rendered message gives that message |
| `Ftx.ParseMessageExact` | src/ftx.rs:44-62 | a text reads back as message m if and only if it is m's rendering |
| `Ftx.MessageTextInjective` | src/ftx.rs:44-62 | two messages with the same text are the same message |
| `Ftx.DistinctRequestsRenderDistinctly` | src/ftx.rs:12-58 | two requests that differ in operation or in channel render to different texts |
| `Ftx.MarketRoundTrip` | src/ftx.rs:106 | when the base contains no `/`, the market `base + "/" + quote` splits back into that base and quote |
| `Ftx.SubscribeRequest` | src/ftx.rs:104-108 | the request `subscribe_channel` builds is always a `Subscribe` on the given channel, and its market splits back into base and quote whenever the base holds no `/` |
| `Ftx.SubscribeRequestDecodes` | src/ftx.rs:104-108 | the text of the request `subscribe_channel` sends reads back as a `Subscribe` for the given channel and the market `base/quote`, for every base and quote |
| `BookSpec.ApplyLevel` | src/bin/ftx-hyperbook.rs:44-58 | after one level, its price is absent when the size is zero and holds exactly that size otherwise; every other price keeps its entry; removing an absent price changes nothing |
| `BookSpec.LastFor` | src/bin/ftx-hyperbook.rs:96-110 | returns the index of a level with that price and no later level with it, or nothing when no level names the price |
| `BookSpec.FirstFor` | src/bin/ftx-hyperbook.rs:77-95 | returns the index of a level with that price and no earlier level with it, or nothing when no level names the price |
| `BookSpec.ApplyLevels` | src/bin/ftx-hyperbook.rs:44-110 | the four level loops (lines 44-58, 59-73, 81-95 and 96-110): applying a run of levels in order adds no price to a side except prices the levels name; the per-price result is `ApplyLevelsAt` |
| `BookSpec.ApplyLevelsAt` | src/bin/ftx-hyperbook.rs:96-110 | after a run of levels, each price holds what the last level listed for it leaves, or its old entry when no level names it |
| `BookSpec.UnmentionedPriceUnchanged` | src/bin/ftx-hyperbook.rs:81-110 | a price that no level names keeps its size, or stays absent |
| `BookSpec.ApplyLevelsKeepsNoZero` | src/bin/ftx-hyperbook.rs:45-57 | a side with no zero size keeps none after any run of levels |
| `BookSpec.ReversedSameElements` | src/bin/ftx-hyperbook.rs:40-41 | reversing the bid list keeps exactly the same levels, with the same multiplicities |
| `BookSpec.ReversedAt` | src/bin/ftx-hyperbook.rs:40-41 | element k of the reversed list is element n-1-k of the original |
| `BookSpec.LastForReversed` | src/bin/ftx-hyperbook.rs:77-81 | the last level for a price in the reversed bid list sits at the mirror position of the first one in the list as received |
| `BookSpec.ApplySnapshot` | src/bin/ftx-hyperbook.rs:75-110 | a message adds to each side only prices that side's own levels name; the per-price result is `ApplySnapshotAt` |
| `BookSpec.ReversedBidsAt` | src/bin/ftx-hyperbook.rs:77-95 | applying the reversed bid list leaves each price what its first-listed bid level leaves, or its old entry when no bid names it |
| `BookSpec.ApplySnapshotAt` | src/bin/ftx-hyperbook.rs:75-110 | after a message, a bid price holds what its first-listed bid level leaves and an ask price what its last-listed ask level leaves; unnamed prices keep their entries; each side depends only on its own levels |
| `BookSpec.ApplySnapshotKeepsNoZero` | src/bin/ftx-hyperbook.rs:77-110 | a message never leaves a zero size on either side if there was none before |
| `BookSpec.ReversalImmaterialWhenDistinct` | src/bin/ftx-hyperbook.rs:77-95 | when the bid prices of a message are distinct, applying them reversed or as received gives the same side |
| `BookSpec.ReversalMattersForRepeatedPrice` | src/bin/ftx-hyperbook.rs:40-58 | for bids (100, 2) then (100, 3), the reversed order leaves 2 at price 100 where the received order would leave 3 |
| `Hyperbook.Step` | src/bin/ftx-hyperbook.rs:33-115 | handling one frame: a decodable `partial` or `update` continues with `ApplySnapshot` of the book and the frame's data; a missing `type` panics with `MissingType`; an undecodable `subscribed`, `partial` or `update` panics with `Undecodable`; a decodable `subscribed` continues; a panic, and any frame that is neither `partial` nor `update`, leaves the book (other tags: `UnknownTagPanics`) |
| `Hyperbook.Replay` | src/bin/ftx-hyperbook.rs:28-118 | frames are handled in order until the first panic; a stream without `partial` or `update` frames leaves the book as it was |
| `Hyperbook.ReplayFrom` | src/bin/ftx-hyperbook.rs:29-31 | replaying from frame i is handling frame i, then stopping on a panic or replaying from frame i + 1 |
| `Hyperbook.LevelArray` | src/bin/ftx-hyperbook.rs:77 | the bid levels are moved into a fresh vector holding exactly them, in order |
| `Hyperbook.ReverseInPlace` | src/bin/ftx-hyperbook.rs:40-41 | the array afterwards holds the reversal of its old contents |
| `Hyperbook.LimitOrderBook.constructor` | src/bin/ftx-hyperbook.rs:20-23 | the book starts with both sides empty |
| `Hyperbook.LimitOrderBook.ApplyData` | src/bin/ftx-hyperbook.rs:77-110 | the move, the reversal and the two loops leave the book equal to `ApplySnapshot` of the old book: reversed bids applied, then asks |
| `Hyperbook.LimitOrderBook.ApplyBids` | src/bin/ftx-hyperbook.rs:81-95 | the bid loop leaves `bids` equal to `ApplyLevels` of the old bids over the vector, and `asks` untouched |
| `Hyperbook.LimitOrderBook.ApplyAsks` | src/bin/ftx-hyperbook.rs:96-110 | the ask loop leaves `asks` equal to `ApplyLevels` of the old asks over the levels, and `bids` untouched |
| `Hyperbook.LimitOrderBook.Handle` | src/bin/ftx-hyperbook.rs:33-116 | the outcome and the new book are those `Step` gives for the old book and the frame, and a book without zero sizes keeps none |
| `Hyperbook.Ingest` | src/bin/ftx-hyperbook.rs:28-119 | the frames are handled in order until the first panic; the outcome and the book are those `Replay` gives, and a book without zero sizes keeps none |
| `Hyperbook.PartialActsAsUpdate` | src/bin/ftx-hyperbook.rs:38-111 | a `partial` frame has the same outcome and the same effect on the book as an `update` frame with the same contents |
| `Hyperbook.PartialKeepsUnnamedPrices` | src/bin/ftx-hyperbook.rs:38-74 | a `partial` merges into the book: every price its levels do not name keeps its entry on both sides |
| `Hyperbook.UnknownTagPanics` | src/bin/ftx-hyperbook.rs:112-115 | a tag other than `subscribed`, `partial` and `update` panics, naming the tag, and the book is left as it was |
| `Hyperbook.FramesAfterPanicIgnored` | src/bin/ftx-hyperbook.rs:28-31 | when the frame being handled panics, no frame after it is handled, and the book is left as it was |
| `Hyperbook.PanicAnywhereStops` | src/bin/ftx-hyperbook.rs:28-31 | when the frames before it all continue and a frame panics, the stream ends with that panic and the book those frames left, whatever frames follow |
| `Hyperbook.ReplayKeepsNoZero` | src/bin/ftx-hyperbook.rs:29-118 | a book without zero sizes keeps none after any sequence of frames |
| `Hyperbook.SnapshotThenUpdate` | src/bin/ftx-hyperbook.rs:38-111 | from an empty book, a partial with bids (100, 2), (99, 1) and ask (101, 3), then an update with bid (100, 0) and asks (101, 1), (102, 5), leave bids {99: 1} and asks {101: 1, 102: 5} |

## Left out

- The WebSocket connection, `split`, and sending and receiving frames (src/bin/ftx-hyperbook.rs:16-18, 29-30; the send in src/ftx.rs:102-112). This is I/O through external crates. `subscribe_channel` is modelled only by the message value it sends (`SubscribeRequest`).
- JSON parsing by serde. A frame arrives already decoded. Its `tag` is the `type` field, and `None` stands for a missing or non-string field. Its `subscribed` and `book` fields are the results of decoding the frame as each structure, with `None` where that decoding fails. The panics of `message.unwrap()`, `into_text().unwrap()` and `from_str(...).unwrap()` on line 30-31 are transport and parser failures and are not modelled.
- `tokio::spawn`, `Arc<Mutex<_>>` and the lock taken for every level. The book is one object updated sequentially. The model does not capture that an observer could read a half-applied message between two lock acquisitions.
- The printing loop with `sleep` and the `println!` of the subscribed message. These are presentation and timing.
- The ascending iteration order of the `BTreeMap`s. It matters only for printing, so each side is a Dafny `map`.
- The `time` field of the snapshot data. It is floating point and never read.
- The `checksum` field is carried but never used, as in the code. The crossed-book check and snapshot-replaces-book behaviour do not exist in the code, so the model does not add them.
- The market string is spliced into the request text unescaped, as in the code (src/ftx.rs:53-58). The text is JSON carrying that market only when the market needs no JSON escaping (no quote, backslash or control character). Otherwise it is invalid JSON, or valid JSON that says something else (a market can close its own string and add keys). The model does not state JSON validity. The round-trip lemmas hold for every market anyway, because `ParseMessage` reads the rendered text and not JSON.
- Unsubscribe and ping messages are rendered but never sent by this binary. The model covers their rendering only.
- `Ftx.MarketRoundTrip`: requires that the base contains no `/`. Otherwise `"A/B" + "/" + "C"` and `"A" + "/" + "B/C"` give the same market, and the split cannot recover the base.
