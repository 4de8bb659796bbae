/** The handler of the `webhook` service: the shared pipeline with the
    messages "Invalid JSON" and "Unauthorized". */
module Webhook {
  import opened Pipeline

  const WebhookMessages := Messages("Invalid JSON", "Unauthorized")

  /** One POST to the alert endpoint, `secret` being the configured
      webhook secret and `ts` the time of publishing. */
  function HandleWebhook(secret: string, req: Request, ts: string): (r: Response)
    ensures req.body.None? ==> r == Reject(400, "Invalid JSON") && Published(r) == []
    ensures req.body.Some? && !Authentic(secret, req.secretHeader, req.body.value) ==>
              r == Reject(401, "Unauthorized") && Published(r) == []
    ensures req.body.Some? && Authentic(secret, req.secretHeader, req.body.value) && !WellFormed(req.body.value) ==>
              r == Reject(400, Required) && Published(r) == []
    ensures r.Accept? <==>
              (req.body.Some? && Authentic(secret, req.secretHeader, req.body.value) && WellFormed(req.body.value))
    ensures r.Reject? ==> r.message in {"Invalid JSON", "Unauthorized", Required}
    ensures r.Accept? ==> Published(r) == [EventOf(req.body.value, ts)] && Status(r) == 200
  {
    Handle(WebhookMessages, secret, req, ts)
  }
}
