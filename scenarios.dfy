/** Concrete alerts run through the pipeline. */
module Scenarios {
  import opened Wrappers
  import opened Pipeline

  const Key := "s3cret"

  /** A `ticker` with a `:` and an upper-case `signal`, authenticated by the
      header, become the event ETH-USD / sell with the price passed through. */
  lemma TickerAndSignalFallback(msgs: Messages, ts: string)
    ensures Handle(msgs, Key, Request(Some(Key), Some(map["ticker" := "ETH:USD", "signal" := "SELL", "price" := "3000"])), ts)
         == Accept(Event("ETH-USD", "sell", Some("3000"), ts))
  {
    var body := map["ticker" := "ETH:USD", "signal" := "SELL", "price" := "3000"];
    assert RawSymbol(body) == "ETH:USD";
    assert RawAction(body) == "SELL";
    assert Symbol(body) == "ETH-USD";
    assert Action(body) == "sell";
  }

  /** The body's `secret` field authenticates when the header is absent or empty. */
  lemma BodySecretFallback(msgs: Messages, header: Option<string>, ts: string)
    requires header == None || header == Some("")
    ensures Handle(msgs, Key, Request(header, Some(map["secret" := Key, "symbol" := "BTCUSD", "action" := "Buy"])), ts)
         == Accept(Event("BTCUSD-USD", "buy", None, ts))
  {
    var body := map["secret" := Key, "symbol" := "BTCUSD", "action" := "Buy"];
    assert ProvidedSecret(header, body) == Some(Key);
    assert RawSymbol(body) == "BTCUSD";
    assert Symbol(body) == "BTCUSD";
    assert '-' !in Symbol(body);
    assert Canonicalize(Symbol(body)) == "BTCUSD-USD";
    assert Action(body) == "buy";
    assert Authentic(Key, header, body);
    assert WellFormed(body);
    assert Get(body, "price") == None;
  }

  /** An empty symbol is refused even with the right secret and a good action. */
  lemma EmptySymbolRejected(msgs: Messages, ts: string)
    ensures Handle(msgs, Key, Request(Some(Key), Some(map["symbol" := "", "action" := "buy"])), ts)
         == Reject(400, Required)
  {
  }

  /** An action other than buy or sell is refused; with a wrong secret the
      same alert gets 401 instead, since authentication comes first. */
  lemma HoldRejected(msgs: Messages, ts: string)
    ensures Handle(msgs, Key, Request(Some(Key), Some(map["symbol" := "BTC-USD", "action" := "hold"])), ts)
         == Reject(400, Required)
    ensures Handle(msgs, Key, Request(Some("guess"), Some(map["symbol" := "BTC-USD", "action" := "hold"])), ts)
         == Reject(401, msgs.unauthorized)
  {
  }

  /** An exchange-prefixed ticker keeps the exchange as the part before the
      `-` and gets no quote: "COINBASE:BTCUSD" is published as
      "COINBASE-BTCUSD". */
  lemma ExchangePrefixBecomesBase(msgs: Messages, ts: string)
    ensures Handle(msgs, Key, Request(Some(Key), Some(map["ticker" := "COINBASE:BTCUSD", "action" := "buy"])), ts)
         == Accept(Event("COINBASE-BTCUSD", "buy", None, ts))
  {
    var body := map["ticker" := "COINBASE:BTCUSD", "action" := "buy"];
    assert RawSymbol(body) == "COINBASE:BTCUSD";
    assert Symbol(body) == "COINBASE-BTCUSD";
    assert Symbol(body)[8] == '-';
    assert Action(body) == "buy";
  }

  /** Several separators are all kept and the case of the symbol is left
      alone: "eth:usd:perp" is published as "eth-usd-perp". */
  lemma SymbolKeepsEverySeparator(msgs: Messages, ts: string)
    ensures Handle(msgs, Key, Request(Some(Key), Some(map["symbol" := "eth:usd:perp", "action" := "sell"])), ts)
         == Accept(Event("eth-usd-perp", "sell", None, ts))
  {
    var body := map["symbol" := "eth:usd:perp", "action" := "sell"];
    assert RawSymbol(body) == "eth:usd:perp";
    assert Symbol(body) == "eth-usd-perp";
    assert Symbol(body)[3] == '-';
    assert Action(body) == "sell";
  }
}
