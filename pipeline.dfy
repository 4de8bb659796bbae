/** The request-scoped webhook pipeline shared by both handlers: parse the
    alert, authenticate it with the shared secret, extract and normalize the
    symbol and the action, validate them, canonicalize the symbol and build
    the event. Each stage either passes a value on or ends the request with
    a rejection; only the last stage publishes. */
module Pipeline {
  import opened Wrappers
  import opened Text

  /** A decoded JSON object whose values are strings. */
  type Body = map<string, string>

  /** What the handler reads from one HTTP request: the `X-Webhook-Secret`
      header (None when absent) and the decoded body (None when the body is
      not valid JSON). */
  datatype Request = Request(secretHeader: Option<string>, body: Option<Body>)

  /** The two rejection messages in which the handlers differ. */
  datatype Messages = Messages(invalidJson: string, unauthorized: string)

  /** The published trading-signal event; `price` is the alert's own `price`
      field, `ts` the publish time. */
  datatype Event = Event(symbol: string, action: string, price: Option<string>, ts: string)

  /** The outcome of one stage: the value to pass on, or a rejection with an
      HTTP status and an error message. */
  datatype Verdict<+T> = Accept(value: T) | Reject(status: nat, message: string) {

    predicate IsFailure() {
      Reject?
    }

    function PropagateFailure<U>(): Verdict<U>
      requires Reject?
    {
      Reject(status, message)
    }

    function Extract(): T
      requires Accept?
    {
      value
    }
  }

  /** The outcome of a whole request: the event to publish, or a rejection. */
  type Response = Verdict<Event>

  const Required := "symbol/action required"
  const QuoteSuffix := "-USD"

  /** The HTTP status the handler returns. */
  function Status(r: Response): nat {
    if r.Accept? then 200 else r.status
  }

  /** The events the handler hands to the publisher. */
  function Published(r: Response): seq<Event> {
    if r.Accept? then [r.value] else []
  }

  /** `body.get(key)`. */
  function Get(body: Body, key: string): Option<string> {
    if key in body then Some(body[key]) else None
  }

  /** Python truthiness of an optional string: present and non-empty. */
  predicate Truthy(v: Option<string>) {
    v.Some? && v.value != ""
  }

  /** Python's `a or b`. */
  function Or(a: Option<string>, b: Option<string>): Option<string> {
    if Truthy(a) then a else b
  }

  /** `body.get(primary) or body.get(fallback) or ""`. */
  function Field(body: Body, primary: string, fallback: string): (raw: string)
    ensures Truthy(Get(body, primary)) ==> raw == body[primary]
    ensures !Truthy(Get(body, primary)) && fallback in body ==> raw == body[fallback]
    ensures !Truthy(Get(body, primary)) && fallback !in body ==> raw == ""
  {
    Or(Or(Get(body, primary), Get(body, fallback)), Some("")).value
  }

  /** `hmac.compare_digest` on the encoded strings: its answer only. */
  predicate ConstantTimeEquals(a: string, b: string) {
    a == b
  }

  /** Stage 1: the decoded body, or a 400 when the body is not JSON. */
  function ParseGate(msgs: Messages, body: Option<Body>): (r: Verdict<Body>)
    ensures r.Reject? <==> body.None?
    ensures r.Reject? ==> r.status == 400 && r.message == msgs.invalidJson
    ensures r.Accept? ==> r.value == body.value
  {
    match body
    case None => Reject(400, msgs.invalidJson)
    case Some(b) => Accept(b)
  }

  /** The candidate secret: the header when it is present and non-empty,
      otherwise the body's `secret` field. */
  function ProvidedSecret(header: Option<string>, body: Body): (provided: Option<string>)
    ensures Truthy(header) ==> provided == header
    ensures !Truthy(header) ==> provided == Get(body, "secret")
  {
    Or(header, Get(body, "secret"))
  }

  /** `not provided or not constant_time_equals(provided, secret)` fails:
      the request's candidate secret is present, non-empty and the
      configured one. */
  predicate Authentic(secret: string, header: Option<string>, body: Body) {
    var provided := ProvidedSecret(header, body);
    Truthy(provided) && ConstantTimeEquals(provided.value, secret)
  }

  /** Stage 2: pass exactly when the candidate secret is the configured one
      (an empty configured secret admits nobody); otherwise a 401. */
  function AuthGate(msgs: Messages, secret: string, header: Option<string>, body: Body): (r: Verdict<()>)
    ensures r.Accept? <==> secret != "" && ProvidedSecret(header, body) == Some(secret)
    ensures r.Reject? ==> r.status == 401 && r.message == msgs.unauthorized
  {
    if Authentic(secret, header, body) then Accept(()) else Reject(401, msgs.unauthorized)
  }

  /** The raw symbol field, `symbol` falling back to `ticker`. */
  function RawSymbol(body: Body): string {
    Field(body, "symbol", "ticker")
  }

  /** The raw action field, `action` falling back to `signal`. */
  function RawAction(body: Body): string {
    Field(body, "action", "signal")
  }

  /** The normalized symbol: the raw symbol with every `:` turned into `-`. */
  function Symbol(body: Body): (sym: string)
    ensures ':' !in sym
    ensures |sym| == |RawSymbol(body)|
    ensures forall i :: 0 <= i < |sym| ==> sym[i] == (if RawSymbol(body)[i] == ':' then '-' else RawSymbol(body)[i])
  {
    ReplaceChar(RawSymbol(body), ':', '-')
  }

  /** The normalized action: the raw action with its letters lowered. */
  function Action(body: Body): (act: string)
    ensures EqualIgnoringCase(act, RawAction(body))
    ensures forall i :: 0 <= i < |act| ==> !IsAsciiUpper(act[i])
  {
    Lower(RawAction(body))
  }

  /** Stage 3: pass exactly when the action is `buy` or `sell` and the
      symbol is not empty; otherwise a 400. */
  function ValidateGate(symbol: string, action: string): (r: Verdict<()>)
    ensures r.Accept? <==> action in {"buy", "sell"} && |symbol| > 0
    ensures r.Reject? ==> r.status == 400 && r.message == Required
  {
    if (action == "buy" || action == "sell") && symbol != "" then Accept(()) else Reject(400, Required)
  }

  /** Stage 4: a symbol without a `-` gets the default quote `-USD`; one
      that has a `-` already is kept. */
  function Canonicalize(symbol: string): (canon: string)
    ensures '-' in canon
    ensures symbol <= canon
    ensures '-' in symbol ==> canon == symbol
    ensures '-' !in symbol ==> canon == symbol + QuoteSuffix
    ensures ':' !in symbol ==> ':' !in canon
  {
    if '-' in symbol then symbol else symbol + QuoteSuffix
  }

  /** Canonicalizing a canonical symbol changes nothing. */
  lemma CanonicalizeIdempotent(symbol: string)
    ensures Canonicalize(Canonicalize(symbol)) == Canonicalize(symbol)
  {
  }

  /** The normalized fields pass validation. */
  predicate WellFormed(body: Body) {
    ValidateGate(Symbol(body), Action(body)).Accept?
  }

  /** The event an accepted body yields. */
  function EventOf(body: Body, ts: string): Event {
    Event(Canonicalize(Symbol(body)), Action(body), Get(body, "price"), ts)
  }

  /** The whole gate chain for one request, with `secret` the configured
      webhook secret and `ts` the publish time: parse, then authenticate,
      then validate, each failure ending the request. */
  function Handle(msgs: Messages, secret: string, req: Request, ts: string): (r: Response)
    ensures req.body.None? ==> r == Reject(400, msgs.invalidJson)
    ensures req.body.Some? && !Authentic(secret, req.secretHeader, req.body.value) ==>
              r == Reject(401, msgs.unauthorized)
    ensures req.body.Some? && Authentic(secret, req.secretHeader, req.body.value) && !WellFormed(req.body.value) ==>
              r == Reject(400, Required)
    ensures r.Accept? <==>
              (req.body.Some? && Authentic(secret, req.secretHeader, req.body.value) && WellFormed(req.body.value))
    ensures r.Accept? ==> r.value == EventOf(req.body.value, ts)
  {
    var body :- ParseGate(msgs, req.body);
    var _ :- AuthGate(msgs, secret, req.secretHeader, body);
    var symbol := Symbol(body);
    var action := Action(body);
    var _ :- ValidateGate(symbol, action);
    Accept(Event(Canonicalize(symbol), action, Get(body, "price"), ts))
  }

  /** Fail-closed: a rejection publishes nothing and answers 400 or 401; an
      acceptance publishes exactly one event and answers 200. */
  lemma PublishIffAccepted(msgs: Messages, secret: string, req: Request, ts: string)
    ensures var r := Handle(msgs, secret, req, ts);
      && (r.Reject? <==> Published(r) == [])
      && (r.Reject? ==> Status(r) == 400 || Status(r) == 401)
      && (r.Accept? <==> |Published(r)| == 1 && Status(r) == 200)
  {
  }

  /** What every published event satisfies: its symbol has a `-` and no `:`,
      extends the normalized symbol and is already canonical; its action is
      `buy` or `sell`; its price and time are passed through. */
  lemma AcceptedEventShape(msgs: Messages, secret: string, header: Option<string>, body: Body, ts: string)
    requires Handle(msgs, secret, Request(header, Some(body)), ts).Accept?
    ensures var e := Handle(msgs, secret, Request(header, Some(body)), ts).value;
      && '-' in e.symbol && ':' !in e.symbol
      && Symbol(body) != "" && Symbol(body) <= e.symbol
      && Canonicalize(e.symbol) == e.symbol
      && (e.action == "buy" || e.action == "sell")
      && EqualIgnoringCase(e.action, RawAction(body))
      && e.price == Get(body, "price")
      && e.ts == ts
  {
  }

  /** Authentication comes before validation: once the secret is wrong or
      missing the answer is 401, whatever the other fields hold. */
  lemma AuthenticationDominates(msgs: Messages, secret: string, header: Option<string>, b1: Body, b2: Body, ts: string)
    requires Get(b1, "secret") == Get(b2, "secret")
    requires !Authentic(secret, header, b1)
    ensures Handle(msgs, secret, Request(header, Some(b1)), ts) == Reject(401, msgs.unauthorized)
    ensures Handle(msgs, secret, Request(header, Some(b2)), ts) == Reject(401, msgs.unauthorized)
  {
  }

  /** A present, non-empty header decides authentication: the body's
      `secret` field is then never looked at, so two bodies that differ at
      most in it (changed, added or removed) get the same answer. */
  lemma HeaderSecretPrecedence(msgs: Messages, secret: string, header: Option<string>, b1: Body, b2: Body, ts: string)
    requires Truthy(header)
    requires forall k :: k != "secret" ==> Get(b1, k) == Get(b2, k)
    ensures Handle(msgs, secret, Request(header, Some(b1)), ts)
         == Handle(msgs, secret, Request(header, Some(b2)), ts)
  {
  }

  /** The answer depends on the action only up to the case of its letters. */
  lemma ActionCaseInsensitive(msgs: Messages, secret: string, header: Option<string>, b1: Body, b2: Body, ts: string)
    requires Get(b1, "secret") == Get(b2, "secret")
    requires RawSymbol(b1) == RawSymbol(b2)
    requires Get(b1, "price") == Get(b2, "price")
    requires EqualIgnoringCase(RawAction(b1), RawAction(b2))
    ensures Handle(msgs, secret, Request(header, Some(b1)), ts) == Handle(msgs, secret, Request(header, Some(b2)), ts)
  {
  }

  /** Normalization is idempotent end to end: resending an accepted alert
      with its event's symbol in place of its own yields the same event. */
  lemma ResubmitCanonicalSymbol(msgs: Messages, secret: string, header: Option<string>, body: Body, ts: string)
    requires Handle(msgs, secret, Request(header, Some(body)), ts).Accept?
    ensures var e := Handle(msgs, secret, Request(header, Some(body)), ts).value;
      Handle(msgs, secret, Request(header, Some(body["symbol" := e.symbol])), ts)
        == Handle(msgs, secret, Request(header, Some(body)), ts)
  {
    var e := Handle(msgs, secret, Request(header, Some(body)), ts).value;
    var body' := body["symbol" := e.symbol];
    assert Get(body', "secret") == Get(body, "secret");
    assert Get(body', "action") == Get(body, "action") && Get(body', "signal") == Get(body, "signal");
    assert Get(body', "price") == Get(body, "price");
    assert RawSymbol(body') == e.symbol;
    ReplaceCharAbsent(e.symbol, ':', '-');
    CanonicalizeIdempotent(Symbol(body));
  }
}
