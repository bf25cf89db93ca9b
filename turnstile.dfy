/**
 * `verifyTurnstile`: the human-verification decision. The call to the
 * challenge service is abstracted into the reply it produced.
 */
module Turnstile {
  import opened Wrappers
  import opened JsValues

  /** The form fields posted to the verification service, in the order they are set. */
  function SiteverifyForm(secret: string, token: string, ip: string): seq<(string, string)>
  {
    [("secret", secret), ("response", token)] + (if ip != "unknown" then [("remoteip", ip)] else [])
  }

  /** How the call to the verification service ended. */
  datatype SiteverifyReply =
    | NetworkError                          // fetch itself rejected
    | Reply(ok: bool, body: Option<Json>)   // the HTTP status was 2xx or not; None: the body is not JSON

  /** The answer of verifyTurnstile, or an exception that escapes it. */
  datatype Verdict = Verified(passed: bool) | Threw

  /**
   * verifyTurnstile: passes when no secret is configured, fails without a
   * token, and otherwise passes iff the reply is ok and its `success` is truthy.
   * A failed fetch, a body that is not JSON, or a JSON `null` body (reading
   * `.success` of null) throws.
   */
  function VerifyTurnstile(secret: Option<string>, token: Option<string>, reply: SiteverifyReply): Verdict
  {
    if !Present(secret) then Verified(true)
    else if !Present(token) then Verified(false)
    else match reply
      case NetworkError => Threw
      case Reply(ok, body) =>
        if !ok then Verified(false)
        else match body
          case None => Threw
          case Some(JNull) => Threw
          case Some(json) =>
            Verified(match Property(json, "success") case Some(flag) => Truthy(flag) case None => false)
  }

  /** The request the service receives, if one is made at all. */
  function SiteverifyRequest(secret: Option<string>, token: Option<string>, ip: string): Option<seq<(string, string)>>
  {
    if Present(secret) && Present(token) then Some(SiteverifyForm(secret.value, token.value, ip)) else None
  }

  /** The reply body carries a truthy `success` flag. */
  predicate SuccessFlag(reply: SiteverifyReply)
  {
    reply.Reply? && reply.body.Some? && reply.body.value.JObject?
    && "success" in reply.body.value.fields && Truthy(reply.body.value.fields["success"])
  }

  /**
   * The decision, both ways: it passes iff no secret is configured, or a
   * token was sent and the reply is ok with a truthy `success`; it fails
   * closed when a secret is set and the token is absent or "".
   */
  lemma VerifyTurnstileDecision(secret: Option<string>, token: Option<string>, reply: SiteverifyReply)
    ensures VerifyTurnstile(secret, token, reply) == Verified(true)
      <==> !Present(secret) || (Present(token) && reply.Reply? && reply.ok && SuccessFlag(reply))
    ensures Present(secret) && !Present(token) ==> VerifyTurnstile(secret, token, reply) == Verified(false)
    ensures VerifyTurnstile(secret, token, reply) == Threw
      <==> (Present(secret) && Present(token)
        && (reply.NetworkError? || (reply.ok && (reply.body.None? || reply.body.value.JNull?))))
  {
  }

  /**
   * A request is made only with a secret and a token; it always sends both,
   * and it sends `remoteip` exactly when the address is not "unknown".
   */
  lemma SiteverifyRequestFields(secret: Option<string>, token: Option<string>, ip: string)
    ensures SiteverifyRequest(secret, token, ip).Some? <==> Present(secret) && Present(token)
    ensures SiteverifyRequest(secret, token, ip).Some? ==>
      var form := SiteverifyRequest(secret, token, ip).value;
      && form[0] == ("secret", secret.value) && form[1] == ("response", token.value)
      && (("remoteip", ip) in form <==> ip != "unknown")
      && |form| == (if ip == "unknown" then 2 else 3)
  {
    if Present(secret) && Present(token) {
      var form := SiteverifyForm(secret.value, token.value, ip);
      if ip != "unknown" {
        assert form[2] == ("remoteip", ip);
      } else {
        assert form == [("secret", secret.value), ("response", token.value)];
        assert "secret" != "remoteip" && "response" != "remoteip" by {
          assert "secret"[0] != "remoteip"[0];
          assert "response"[2] != "remoteip"[2];
        }
      }
    }
  }
}
