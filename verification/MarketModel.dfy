/** Values shared by the whole runtime: the facts that travel from Kafka messages to
    database rows, and the optional integers used as exchange cursors. */
module MarketModel {

  datatype Option<+T> = None | Some(value: T)

  /** One price level. Price and quantity stay as the text the exchange sent. */
  datatype PriceLevel = PriceLevel(price: string, quantity: string)

  /** An incremental order-book event with its four optional cursors. */
  datatype OrderBookDelta = OrderBookDelta(
    rawEventID: string,
    firstUpdateID: Option<int>,
    lastUpdateID: Option<int>,
    prevUpdateID: Option<int>,
    sequence: Option<int>,
    bids: seq<PriceLevel>,
    asks: seq<PriceLevel>)

  datatype OrderBookSnapshot = OrderBookSnapshot(
    groupID: string,
    inputID: string,
    snapshotTime: int,
    sequence: Option<int>,
    bids: seq<PriceLevel>,
    asks: seq<PriceLevel>)

  /** `rawTradeID` is empty when the exchange supplies no stable id; `body` stands for
      the columns that no rule ever looks at. */
  datatype Trade = Trade(rawTradeID: string, body: string)

  datatype KlineKey = KlineKey(source: string, interval: string, openTime: int)

  datatype Kline = Kline(key: KlineKey, isClosed: bool, revision: int, body: string)
}
