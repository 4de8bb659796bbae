# Webhook validation and normalization pipeline, in Dafny

This project models the alert-ingestion core of a trading-signal service:
the HTTP handler that takes an untrusted alert from a charting platform,
authenticates it with a shared secret, normalizes its symbol and action,
and publishes one canonical trading-signal event onto a message queue.

Two handlers in the repository do this. They are `webhook()` in
`webhook/main.py` and `tv_webhook()` in `src/webhook-handler/main.py`.
They run the same short-circuiting chain of gates:

1. decode the JSON body, or answer 400;
2. take the candidate secret from the `X-Webhook-Secret` header, falling
   back to the body's `secret` field, and answer 401 unless it is present,
   non-empty and equal to the configured secret;
3. read `symbol` (falling back to `ticker`) with every `:` turned into `-`,
   and `action` (falling back to `signal`) lowered;
4. answer 400 unless the action is `buy` or `sell` and the symbol is non-empty;
5. append `-USD` to a symbol that has no `-`;
6. publish `{symbol, action, price, ts}` and answer 200.

The two handlers differ only in the capitalisation of two messages:
"Invalid JSON" and "Unauthorized" in one, "invalid json" and
"unauthorized" in the other.

The model is one pure function, `Pipeline.Handle`. It is written as a
`:-` chain over the gates `ParseGate`, `AuthGate` and `ValidateGate`.
Each gate returns a `Verdict`: `Accept(value)` passes on, and
`Reject(status, message)` ends the request. The two messages that differ
between the handlers are a `Messages` parameter. `Webhook.HandleWebhook`
and `WebhookHandler.TvWebhook` instantiate it with each handler's messages.
A response publishes `Published(r)`: one event for `Accept`, none for
`Reject`.

Inputs are modelled as follows:
- A request is the `X-Webhook-Secret` header (`None` when absent) and the
  decoded body (`None` when the body is not valid JSON).
- The body is a `map<string, string>`, and `body.get(k)` is `Pipeline.Get`.
- Python's `a or b` on optional strings is `Pipeline.Or`. Its truthiness
  test, present and non-empty, is `Pipeline.Truthy`.
- The configured secret and the publish time `ts` are parameters.

`constant_time_equals` (webhook/main.py:21-22) and the inline
`hmac.compare_digest` (src/webhook-handler/main.py:31) both become
`Pipeline.ConstantTimeEquals`, which is string equality. `Pipeline.AuthGate`
uses it. For strings that UTF-8 can encode, comparing the encodings gives
the same answer as comparing the strings. Strings it cannot encode are
covered under "## Left out".

Files: `wrappers.dfy` (Option), `text.dfy` (`str.replace` and
`str.lower()` on characters), `pipeline.dfy` (the shared gate chain and
its properties), `webhook.dfy` and `webhook_handler.dfy` (the two handlers
and their equivalence), `scenarios.dfy` (concrete alerts).

## Model

| member | source | states |
|---|---|---|
| Text.LowerChar | webhook/main.py:44 | the lowered character is never an ASCII capital; non-capitals are unchanged; a capital moves to its small letter |
| Text.Lower | webhook/main.py:44 | `lower()` keeps the length and lowers every character in place |
| Text.LowerIdempotent | webhook/main.py:44 | a lowered string has no capital letters, and lowering it again changes nothing |
| Text.LowerEqualIff | webhook/main.py:44 | two strings lower to the same string if and only if they agree up to letter case |
| Text.ReplaceChar | webhook/main.py:43 | `replace` keeps the length, puts `to` wherever `from` was, keeps every other character, and leaves no `from` behind |
| Text.ReplaceCharAbsent | webhook/main.py:43 | replacing a character that does not occur is the identity |
| Text.ReplaceCharIdempotent | webhook/main.py:43 | replacing `:` by `-` twice is the same as once |
| Pipeline.Field | webhook/main.py:43-44 | `get(primary) or get(fallback) or ""`: the primary field when present and non-empty, else the fallback field when present, else the empty string |
| Pipeline.Get | webhook/main.py:38 | `body.get(key)`: the key's value when the key is present, `None` otherwise |
| Pipeline.Truthy | webhook/main.py:38-39 | Python truthiness of an optional string: present and non-empty |
| Pipeline.Or | webhook/main.py:38 | Python's `a or b` on optional strings: `a` when it is truthy, `b` otherwise |
| Pipeline.RawSymbol | webhook/main.py:43 | the `or` chain `body.get("symbol") or body.get("ticker") or ""`, before `:` is replaced |
| Pipeline.RawAction | webhook/main.py:44 | the `or` chain `body.get("action") or body.get("signal") or ""`, before lowering |
| Pipeline.ConstantTimeEquals | webhook/main.py:21-22 | `constant_time_equals`, and the inline `hmac.compare_digest` of src/webhook-handler/main.py:31: the answer of the comparison, which is string equality; timing is not modelled |
| Pipeline.Authentic | webhook/main.py:38-39 | the secret check passes: the candidate secret is present, non-empty and equal to the configured secret |
| Pipeline.WellFormed | webhook/main.py:46 | the normalized symbol and action pass validation |
| Pipeline.EventOf | webhook/main.py:49-54 | the event dict: the canonical symbol, the lowered action, the body's `price` and the timestamp |
| Pipeline.Status | webhook/main.py:35-56 | the HTTP status returned: 200 for an accepted request (line 56), the rejection's own status otherwise (lines 35, 40 and 47) |
| Pipeline.Published | webhook/main.py:55 | the events handed to the publisher: the one event of an accepted request, none for a rejection |
| Pipeline.ParseGate | webhook/main.py:32-35 | rejects exactly the bodies that fail to decode, with 400 and the invalid-JSON message; otherwise passes the decoded body on |
| Pipeline.ProvidedSecret | webhook/main.py:38 | the candidate secret is the header when present and non-empty, otherwise the body's `secret` field |
| Pipeline.AuthGate | webhook/main.py:38-40 | passes if and only if the configured secret is non-empty and the candidate secret is exactly it; otherwise 401 with the unauthorized message |
| Pipeline.Symbol | webhook/main.py:43 | the normalized symbol has no `:`, has the raw symbol's length, and is the raw symbol with each `:` turned into `-` |
| Pipeline.Action | webhook/main.py:44 | the normalized action has no capital letter and equals the raw `action`/`signal` field up to letter case |
| Pipeline.ValidateGate | webhook/main.py:46-47 | passes if and only if the action is `buy` or `sell` and the symbol is non-empty; otherwise 400 "symbol/action required" |
| Pipeline.Canonicalize | webhook/main.py:50 | the canonical symbol always contains `-`, extends the input symbol, is the input when it had a `-` and the input plus `-USD` otherwise, and adds no `:` |
| Pipeline.CanonicalizeIdempotent | webhook/main.py:50 | canonicalizing twice is canonicalizing once |
| Pipeline.Handle | webhook/main.py:29-56 | gate order: an undecodable body gets 400 with the invalid-JSON message; a bad or missing secret then gets 401; invalid fields then get 400; the request is accepted if and only if all three gates pass, and then the event is the canonical symbol, the lowered action, the body's `price` and `ts` |
| Pipeline.PublishIffAccepted | webhook/main.py:32-56 | a rejection publishes nothing and answers 400 or 401; an acceptance publishes exactly one event and answers 200 |
| Pipeline.AcceptedEventShape | webhook/main.py:49-55 | every published event has a `-` and no `:` in its symbol, a symbol that extends the non-empty normalized symbol and is already canonical, an action in {buy, sell} equal to the input action up to case, the input price unchanged and the given time |
| Pipeline.AuthenticationDominates | webhook/main.py:38-47 | when the secret check fails, the answer is 401 for every body with that `secret` field, whatever its other fields hold |
| Pipeline.HeaderSecretPrecedence | webhook/main.py:38 | with a present, non-empty header, two bodies that differ at most in their `secret` field (changed, added or removed) get the same answer |
| Pipeline.ActionCaseInsensitive | webhook/main.py:44-47 | two alerts whose actions differ only in letter case get the same answer |
| Pipeline.ResubmitCanonicalSymbol | webhook/main.py:43-50 | resending an accepted alert with its event's symbol as `symbol` yields the same event: normalization is idempotent end to end |
| Webhook.HandleWebhook | webhook/main.py:29-56 | `webhook()`: 400 "Invalid JSON" on a parse failure, 401 "Unauthorized" on a failed secret check, and then 400 "symbol/action required" on invalid fields, all publishing nothing; accepted if and only if all three gates pass; every rejection message is one of the three; an acceptance publishes exactly the event of the body and answers 200 |
| WebhookHandler.TvWebhook | src/webhook-handler/main.py:24-47 | `tv_webhook()`: the same with "invalid json" and "unauthorized" |
| WebhookHandler.MessagesDifferOnlyInCase | src/webhook-handler/main.py:28-32 | the two handlers' parse and authentication messages differ, but only in letter case |
| WebhookHandler.HandlersAgree | src/webhook-handler/main.py:24-47 | on every request both handlers make the same decision, return the same status, publish the same events, and reject with messages equal up to letter case |
| Scenarios.TickerAndSignalFallback | webhook/main.py:43-52 | `{"ticker":"ETH:USD","signal":"SELL","price":"3000"}` with the right header is published as ETH-USD / sell / 3000 |
| Scenarios.BodySecretFallback | webhook/main.py:38-50 | with no header or an empty one, the body's `secret` authenticates, and "BTCUSD" with action "Buy" becomes BTCUSD-USD / buy |
| Scenarios.EmptySymbolRejected | webhook/main.py:46-47 | an empty symbol gets 400 even with the right secret and action `buy` |
| Scenarios.HoldRejected | webhook/main.py:38-47 | action "hold" gets 400 with the right secret and 401 with a wrong one |
| Scenarios.ExchangePrefixBecomesBase | webhook/main.py:43-50 | the ticker "COINBASE:BTCUSD" is published as "COINBASE-BTCUSD" |
| Scenarios.SymbolKeepsEverySeparator | webhook/main.py:43-50 | "eth:usd:perp" is published as "eth-usd-perp" |

`src/webhook-handler/main.py` lines 25-46 match `webhook/main.py`
lines 32-55 statement for statement. The second file lacks the two
comment lines webhook/main.py:37 and :42. The `Pipeline` rows therefore also model
src/webhook-handler/main.py:25-28 (parse), 30-32 (secret), 34-38 (fields
and validation), 40-46 (event and publish).

## Observations about the code

The code does not force a `<BASE>-<QUOTE>` symbol with exactly one `-`
and upper-case parts:
- every `:` becomes `-`, and an existing `-` suppresses the `-USD`
  suffix, so a symbol may carry several separators;
- an exchange-prefixed ticker keeps the exchange before the `-`;
- case is never changed.

`Scenarios.ExchangePrefixBecomesBase` and
`Scenarios.SymbolKeepsEverySeparator` show this. `Pipeline.Canonicalize`
proves only "contains at least one `-`".

In `src/webhook-handler/main.py`, the decorators at lines 20 and 23
(`@app.get`, `@app.post`) are indented by one space. A Python interpreter
would refuse to load that module with an indentation error, as the text
stands, so `tv_webhook()` would never be served. The model takes the
handler's body as written. `WebhookHandler.HandlersAgree` compares that
body with `webhook()`.

The secret check rejects a missing secret and also an empty one, because
the empty string is falsy in Python. `Pipeline.AuthGate` states this.

## Left out

- The Flask application, routing and the `/health` endpoint: framework glue.
- The Pub/Sub publisher client and `topic_path`. Publishing is the
  `Accept` outcome, seen through `Pipeline.Published`. The future returned
  by `publish` is never awaited in the code, so publish failures are not
  modelled.
- Secret Manager (`get_secret`) and the environment reads (`PROJECT_ID`,
  `TOPIC`): start-up I/O. The configured secret is a parameter.
- JSON decoding itself. Decoding is not modelled; the decoded body is
  given as an optional map from strings to strings. Restricting values to
  strings is a choice of this model, not of the source:
  - a falsy non-string field (`null`, `0`, `false`, `[]` or `{}`) in
    `symbol`, `ticker`, `action`, `signal` or `secret` is skipped by the
    `or` chains just like a missing key, so the model represents it as an
    absent key;
  - the inputs below raise inside the handler, and so end in a server
    error, only under the condition given for each; none of them is
    represented:
    - a JSON body that is not an object (`[1]`, `"x"`, `null`, `7`) raises
      at webhook/main.py:38 when the header is absent or empty, because
      `body.get("secret")` is then called. A non-empty header is compared
      first: a wrong one gets 401 without `body` being touched, and the
      right one leads to a failure of `body.get` at line 43;
    - a truthy non-string field used for the symbol or the action raises
      (`.replace` at line 43, `.lower` at line 44) only once the secret
      check has passed; before that, a wrong or missing secret gets 401.
      `ticker` is read only when `symbol` is falsy, and `signal` only when
      `action` is falsy, so a non-string in a field that is not read
      raises nothing;
    - with the header absent or empty, a truthy non-string body `secret`
      raises in `.encode` (webhook/main.py:22, called from :39;
      src/webhook-handler/main.py:31);
    - with the header absent or empty, a body `secret` holding a lone
      surrogate such as JSON `"\ud800"` raises UnicodeEncodeError in
      `.encode` (webhook/main.py:22, called from :39;
      src/webhook-handler/main.py:31). The answer is then a server error and not a
      401. A header cannot carry such a character;
  - a lone surrogate in `symbol`, `ticker`, `action`, `signal` or `price`
    raises nothing in the source. `.replace` and `.lower` accept it, and
    `json.dumps` escapes it when the event is published. An action holding
    one is rejected with 400, and a symbol or price holding one is
    published. Dafny's `char` cannot hold a lone surrogate, so these
    inputs are not represented.
- Pipeline.AcceptedEventShape: `price` is passed through unchanged, but
  the model restricts it to strings (`None` when the key is absent).
  An explicit `null` price reads as `None` in the source too, so it is the
  absent key here. Numeric prices such as `65000.5`, booleans, arrays and
  objects are passed through by the source whatever their type, but are
  not represented here.
- The clock: `datetime.now(timezone.utc).isoformat()` is the input `ts`.
- Pipeline.ConstantTimeEquals: the timing behaviour of `hmac.compare_digest`
  cannot be stated. Only its answer is modelled.
- Text.Lower: Python's `str.lower()` is modelled on ASCII letters only.
  Non-ASCII characters are left unchanged.
- HTTP header names are matched case-insensitively by the framework. The
  model takes the already-looked-up header value.
- The IP allow-list gate of a third variant is not part of this model;
  neither of the two handlers modelled here has it.
