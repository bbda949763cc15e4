/**
 * The exchange-facing types of the FTX client (src/ftx.rs): the outbound
 * request and keep-alive messages with their text rendering, the subscribe
 * request built for a base/quote market, and the shapes of the inbound
 * order-book messages.
 */
module Ftx {
  import opened Wrappers

  /** rust_decimal::Decimal is exact, and equal numbers compare equal whatever their scale. */
  type Decimal = real

  newtype U32 = x: int | 0 <= x < 0x1_0000_0000

  datatype Operation = Subscribe | Unsubscribe

  datatype Channel = Orderbook | Trades | Ticker

  datatype Message =
    | Ping
    | Request(operation: Operation, channel: Channel, market: string)

  /** One price level of a book message. */
  datatype Level = Level(price: Decimal, size: Decimal)

  /**
   * The `data` object of a "partial" or "update" message. Its `time` field is
   * floating point and never read, so it is not carried.
   */
  datatype LobSnapshot = LobSnapshot(action: string, bids: seq<Level>, asks: seq<Level>, checksum: U32)

  /** FTXPartial and FTXUpdate have the same fields; one shape serves both. */
  datatype BookMessage = BookMessage(channel: string, data: LobSnapshot, market: string, msgType: string)

  datatype Subscribed = Subscribed(channel: string, market: string, msgType: string)

  // Rendering

  /** The operation's name: a lower-case word, so it needs no escaping inside the quoted "op" field. */
  function OperationText(op: Operation): (name: string)
    ensures |name| > 0 && forall i :: 0 <= i < |name| ==> 'a' <= name[i] <= 'z'
  {
    match op
    case Subscribe => "subscribe"
    case Unsubscribe => "unsubscribe"
  }

  /** The channel's name: a lower-case word, so it needs no escaping inside the quoted "channel" field. */
  function ChannelText(channel: Channel): (name: string)
    ensures |name| > 0 && forall i :: 0 <= i < |name| ==> 'a' <= name[i] <= 'z'
  {
    match channel
    case Orderbook => "orderbook"
    case Ticker => "ticker"
    case Trades => "trades"
  }

  const PingText: string := "{\"op\":\"ping\"}"
  const OpKey: string := "{\"op\":\""
  const ChannelKey: string := "\",\"channel\":\""
  const MarketKey: string := "\",\"market\":\""
  const Close: string := "\"}"

  /**
   * The text sent on the socket: it opens with the "op" key and ends with a
   * brace. The market is spliced in without escaping, so the text is JSON
   * carrying that market only when the market needs no JSON escaping (no
   * quote, backslash or control character); otherwise it is invalid JSON, or
   * valid JSON that says something else.
   */
  function MessageText(m: Message): (s: string)
    ensures OpKey <= s && s[|s| - 1] == '}'
  {
    match m
    case Ping => PingText
    case Request(op, channel, market) =>
      OpKey + (OperationText(op) + (ChannelKey + (ChannelText(channel) + (MarketKey + (market + Close)))))
  }

  /**
   * The request `subscribe_channel` sends: always a subscribe, on the given
   * channel, for a market that splits back into base and quote whenever the
   * base holds no '/'.
   */
  function SubscribeRequest(channel: Channel, base: string, quote: string): (m: Message)
    ensures m.Request? && m.operation == Subscribe && m.channel == channel
    ensures '/' !in base ==> SplitMarket(m.market) == Some((base, quote))
  {
    var m := Request(Subscribe, channel, base + "/" + quote);
    if '/' in base then m else MarketRoundTrip(base, quote); m
  }

  // Reading a rendered message back: the inverse that the rendering lemmas are stated against.

  function StripPrefix(prefix: string, s: string): (r: Option<string>)
    ensures r.Some? <==> prefix <= s
    ensures r.Some? ==> s == prefix + r.value
  {
    if prefix <= s then Some(s[|prefix|..]) else None
  }

  function ParseOperation(s: string): (r: Option<(Operation, string)>)
    ensures r.Some? ==> s == OperationText(r.value.0) + r.value.1
  {
    match StripPrefix(OperationText(Subscribe), s)
    case Some(rest) => Some((Subscribe, rest))
    case None =>
      match StripPrefix(OperationText(Unsubscribe), s)
      case Some(rest) => Some((Unsubscribe, rest))
      case None => None
  }

  function ParseChannel(s: string): (r: Option<(Channel, string)>)
    ensures r.Some? ==> s == ChannelText(r.value.0) + r.value.1
  {
    match StripPrefix(ChannelText(Orderbook), s)
    case Some(rest) => Some((Orderbook, rest))
    case None =>
      match StripPrefix(ChannelText(Ticker), s)
      case Some(rest) => Some((Ticker, rest))
      case None =>
        match StripPrefix(ChannelText(Trades), s)
        case Some(rest) => Some((Trades, rest))
        case None => None
  }

  function StripSuffix(s: string, suffix: string): (r: Option<string>)
    ensures r.Some? ==> s == r.value + suffix
  {
    if |suffix| <= |s| && s[|s| - |suffix|..] == suffix then Some(s[..|s| - |suffix|]) else None
  }

  function ParseMarketPart(s: string): (r: Option<string>)
    ensures r.Some? ==> s == MarketKey + (r.value + Close)
  {
    match StripPrefix(MarketKey, s)
    case None => None
    case Some(rest) => StripSuffix(rest, Close)
  }

  function ParseChannelPart(s: string): (r: Option<(Channel, string)>)
    ensures r.Some? ==> s == ChannelKey + (ChannelText(r.value.0) + (MarketKey + (r.value.1 + Close)))
  {
    match StripPrefix(ChannelKey, s)
    case None => None
    case Some(s1) =>
      match ParseChannel(s1)
      case None => None
      case Some((channel, s2)) =>
        match ParseMarketPart(s2)
        case None => None
        case Some(market) => Some((channel, market))
  }

  function ParseRequest(s: string): (r: Option<Message>)
    ensures r.Some? ==> r.value.Request? && MessageText(r.value) == s
  {
    match StripPrefix(OpKey, s)
    case None => None
    case Some(s1) =>
      match ParseOperation(s1)
      case None => None
      case Some((op, s2)) =>
        match ParseChannelPart(s2)
        case None => None
        case Some((channel, market)) => Some(Request(op, channel, market))
  }

  /** Recovers the message from its text; accepts nothing that is not a rendered message. */
  function ParseMessage(s: string): (r: Option<Message>)
    ensures r.Some? ==> MessageText(r.value) == s
  {
    if s == PingText then Some(Ping) else ParseRequest(s)
  }

  /** Splits a market name at its first '/'. */
  function SplitMarket(market: string): (r: Option<(string, string)>)
    ensures r.None? <==> '/' !in market
    ensures r.Some? ==> '/' !in r.value.0 && market == r.value.0 + "/" + r.value.1
  {
    if |market| == 0 then None
    else if market[0] == '/' then Some(([], market[1..]))
    else
      match SplitMarket(market[1..])
      case None => None
      case Some((base, quote)) => Some(([market[0]] + base, quote))
  }

  // Properties of the rendering

  lemma OperationTextInjective(a: Operation, b: Operation)
    ensures OperationText(a) == OperationText(b) ==> a == b
  {
  }

  lemma ChannelTextInjective(a: Channel, b: Channel)
    ensures ChannelText(a) == ChannelText(b) ==> a == b
  {
  }

  lemma PingRendering()
    ensures MessageText(Ping) == "{\"op\":\"ping\"}"
    ensures ParseMessage("{\"op\":\"ping\"}") == Some(Ping)
  {
  }

  /** No operation name is a prefix of another, so reading one off a text is unambiguous. */
  lemma PrefixFreeOperation(op: Operation, rest: string)
    ensures ParseOperation(OperationText(op) + rest) == Some((op, rest))
  {
    var s := OperationText(op) + rest;
    assert s[0] == OperationText(op)[0];
    assert s[..|OperationText(op)|] == OperationText(op);
  }

  /** No channel name is a prefix of another. */
  lemma PrefixFreeChannel(channel: Channel, rest: string)
    ensures ParseChannel(ChannelText(channel) + rest) == Some((channel, rest))
  {
    var s := ChannelText(channel) + rest;
    assert s[0] == ChannelText(channel)[0];
    assert s[..|ChannelText(channel)|] == ChannelText(channel);
  }

  lemma StripPrefixOfConcat(prefix: string, rest: string)
    ensures StripPrefix(prefix, prefix + rest) == Some(rest)
  {
    assert (prefix + rest)[..|prefix|] == prefix;
  }

  lemma StripSuffixOfConcat(s: string, suffix: string)
    ensures StripSuffix(s + suffix, suffix) == Some(s)
  {
    var t := s + suffix;
    assert t[|t| - |suffix|..] == suffix;
    assert t[..|t| - |suffix|] == s;
  }

  lemma MarketPartRoundTrip(market: string)
    ensures ParseMarketPart(MarketKey + (market + Close)) == Some(market)
  {
    StripPrefixOfConcat(MarketKey, market + Close);
    StripSuffixOfConcat(market, Close);
  }

  lemma ChannelPartRoundTrip(channel: Channel, market: string)
    ensures ParseChannelPart(ChannelKey + (ChannelText(channel) + (MarketKey + (market + Close))))
            == Some((channel, market))
  {
    var tail := MarketKey + (market + Close);
    StripPrefixOfConcat(ChannelKey, ChannelText(channel) + tail);
    PrefixFreeChannel(channel, tail);
    MarketPartRoundTrip(market);
  }

  lemma RequestRoundTrip(op: Operation, channel: Channel, market: string)
    ensures ParseRequest(MessageText(Request(op, channel, market))) == Some(Request(op, channel, market))
  {
    var s2 := ChannelKey + (ChannelText(channel) + (MarketKey + (market + Close)));
    StripPrefixOfConcat(OpKey, OperationText(op) + s2);
    PrefixFreeOperation(op, s2);
    ChannelPartRoundTrip(channel, market);
  }

  /** Rendering then reading back gives the message again. */
  lemma MessageRoundTrip(m: Message)
    ensures ParseMessage(MessageText(m)) == Some(m)
  {
    match m
    case Ping =>
    case Request(op, channel, market) =>
      var s := MessageText(m);
      assert s[|OpKey|] == OperationText(op)[0];
      assert s != PingText;
      RequestRoundTrip(op, channel, market);
  }

  /** A string reads back as a message exactly when it is that message's rendering. */
  lemma ParseMessageExact(s: string, m: Message)
    ensures ParseMessage(s) == Some(m) <==> MessageText(m) == s
  {
    MessageRoundTrip(m);
  }

  /** Distinct messages never share a rendering. */
  lemma MessageTextInjective(a: Message, b: Message)
    ensures MessageText(a) == MessageText(b) ==> a == b
  {
    MessageRoundTrip(a);
    MessageRoundTrip(b);
  }

  /** Requests with different operations, or different channels, render differently. */
  lemma DistinctRequestsRenderDistinctly(a: Message, b: Message)
    requires a.Request? && b.Request?
    requires a.operation != b.operation || a.channel != b.channel
    ensures MessageText(a) != MessageText(b)
  {
    MessageTextInjective(a, b);
  }

  lemma {:induction false} MarketRoundTrip(base: string, quote: string)
    requires '/' !in base
    ensures SplitMarket(base + "/" + quote) == Some((base, quote))
  {
    var market := base + "/" + quote;
    if |base| > 0 {
      assert market[1..] == base[1..] + "/" + quote;
      MarketRoundTrip(base[1..], quote);
      assert [base[0]] + base[1..] == base;
    } else {
      assert market[1..] == quote;
    }
  }

  /**
   * The text `subscribe_channel` puts on the wire reads back as a subscribe
   * request for the given channel and the market base + "/" + quote.
   */
  lemma SubscribeRequestDecodes(channel: Channel, base: string, quote: string)
    ensures ParseMessage(MessageText(SubscribeRequest(channel, base, quote)))
            == Some(Request(Subscribe, channel, base + "/" + quote))
  {
    MessageRoundTrip(SubscribeRequest(channel, base, quote));
  }
}
