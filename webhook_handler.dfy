/** The handler of the `webhook-handler` service: the same pipeline with the
    lower-case messages "invalid json" and "unauthorized". */
module WebhookHandler {
  import opened Text
  import opened Pipeline
  import Webhook

  const HandlerMessages := Messages("invalid json", "unauthorized")

  /** One POST to the alert endpoint, `secret` being the configured
      webhook secret and `ts` the time of publishing. */
  function TvWebhook(secret: string, req: Request, ts: string): (r: Response)
    ensures req.body.None? ==> r == Reject(400, "invalid json") && Published(r) == []
    ensures req.body.Some? && !Authentic(secret, req.secretHeader, req.body.value) ==>
              r == Reject(401, "unauthorized") && Published(r) == []
    ensures req.body.Some? && Authentic(secret, req.secretHeader, req.body.value) && !WellFormed(req.body.value) ==>
              r == Reject(400, Required) && Published(r) == []
    ensures r.Accept? <==>
              (req.body.Some? && Authentic(secret, req.secretHeader, req.body.value) && WellFormed(req.body.value))
    ensures r.Reject? ==> r.message in {"invalid json", "unauthorized", Required}
    ensures r.Accept? ==> Published(r) == [EventOf(req.body.value, ts)] && Status(r) == 200
  {
    Handle(HandlerMessages, secret, req, ts)
  }

  /** The two services' parse and authentication messages are the same
      words, capitalised differently. */
  lemma MessagesDifferOnlyInCase()
    ensures Webhook.WebhookMessages.invalidJson != HandlerMessages.invalidJson
    ensures EqualIgnoringCase(Webhook.WebhookMessages.invalidJson, HandlerMessages.invalidJson)
    ensures Webhook.WebhookMessages.unauthorized != HandlerMessages.unauthorized
    ensures EqualIgnoringCase(Webhook.WebhookMessages.unauthorized, HandlerMessages.unauthorized)
  {
  }

  /** The two services agree on every request: the same accept or reject
      decision, the same status, the same published event, and rejection
      messages that differ only in the case of their letters. */
  lemma HandlersAgree(secret: string, req: Request, ts: string)
    ensures var w, t := Webhook.HandleWebhook(secret, req, ts), TvWebhook(secret, req, ts);
      && w.Accept? == t.Accept?
      && Status(w) == Status(t)
      && Published(w) == Published(t)
      && (w.Reject? ==> EqualIgnoringCase(w.message, t.message))
  {
  }
}
