/**
 * The `POST` handler of the application endpoint: a fixed sequence of gates,
 * each mapping its failure to a status and body, ending in the hand-off of
 * the notification mail to the SMTP transport. Headers, the parsed body, the
 * clock, the environment and the outcomes of the external calls are inputs.
 */
module SendFormEmail {
  import opened Wrappers
  import opened JsValues
  import opened ApplicationForm
  import opened HtmlEscape
  import opened PayloadValidator
  import opened RateLimiter
  import opened Turnstile

  const MaxContentLength := 50000.0
  const MinFillMillis := 3000.0
  /** The SMTP port that selects implicit TLS, as section 3.3 of RFC 8314 assigns it. */
  const ImplicitTlsPort := 465.0

  /** The `x-forwarded-for` value up to its first comma. */
  function FirstSegment(s: string): string
  {
    s[..IndexOfAny(s, {','})]
  }

  /** getClientIp: the trimmed first entry of `x-forwarded-for`, or "unknown" when the header is absent or "". */
  function GetClientIp(forwardedFor: Option<string>): string
  {
    if Present(forwardedFor) then Trim(FirstSegment(forwardedFor.value)) else "unknown"
  }

  /**
   * Without the header the address is "unknown"; with it, the address is the
   * trimmed text before the first comma, so it holds no comma and no white
   * space at either end.
   */
  lemma ClientIpShape(forwardedFor: Option<string>)
    ensures !Present(forwardedFor) ==> GetClientIp(forwardedFor) == "unknown"
    ensures Present(forwardedFor) ==>
      var h := forwardedFor.value;
      var seg := FirstSegment(h);
      && h[..|seg|] == seg && (|seg| == |h| || h[|seg|] == ',')
      && ',' !in seg
      && GetClientIp(forwardedFor) == Trim(seg)
      && ',' !in GetClientIp(forwardedFor)
      && (GetClientIp(forwardedFor) == []
          || (!IsWhitespace(GetClientIp(forwardedFor)[0])
              && !IsWhitespace(GetClientIp(forwardedFor)[|GetClientIp(forwardedFor)| - 1])))
  {
    if Present(forwardedFor) {
      var h := forwardedFor.value;
      IndexOfAnyFirst(h, {','});
      var seg := FirstSegment(h);
      assert forall k :: 0 <= k < |seg| ==> seg[k] != ',';
      TrimEnds(seg);
      var t := TrimStart(seg);
      TrimStartShape(seg);
      TrimEndShape(t);
      assert forall k :: 0 <= k < |Trim(seg)| ==> Trim(seg)[k] == seg[|seg| - |t| + k];
    }
  }

  /** The SMTP settings the transport is created with. */
  datatype Transport = Transport(host: string, port: Number, secure: bool, user: string, pass: string)

  /** The message handed to the transport. */
  datatype Mail = Mail(from: string, to: string, replyTo: string, subject: string, html: string)

  /** The label and value pairs listed in the notification, in order. */
  function MailRows(d: ApplicationFormData, ip: string): seq<(string, string)>
  {
    [ ("fullName", d.fullName), ("age", d.age), ("instagram", d.instagram), ("email", d.email),
      ("onlyfans", if d.onlyfans.Some? && d.onlyfans.value != "" then d.onlyfans.value else "N/A"),
      ("ip", ip) ]
  }

  /** One paragraph of the notification, label and value both escaped. */
  function RowHtml(row: (string, string)): string
  {
    "<p><strong>" + EscapeHtml(row.0) + ":</strong> " + EscapeHtml(row.1) + "</p>"
  }

  /** The paragraphs joined with no separator. */
  function RowsHtml(rows: seq<(string, string)>): string
  {
    if rows == [] then [] else RowHtml(rows[0]) + RowsHtml(rows[1..])
  }

  const Heading := "New Application"

  /** The HTML body of the notification, as the template literal lays it out. */
  function MailHtml(rows: seq<(string, string)>): string
  {
    "\n    <h2>" + Heading + "</h2>\n    " + RowsHtml(rows) + "\n  "
  }

  /** How often `c` occurs in `s`. */
  function CountChar(s: string, c: char): nat
  {
    if s == [] then 0 else (if s[0] == c then 1 else 0) + CountChar(s[1..], c)
  }

  lemma {:induction false} CountCharAppend(a: string, b: string, c: char)
    ensures CountChar(a + b, c) == CountChar(a, c) + CountChar(b, c)
  {
    if a == [] {
      assert a + b == b;
    } else {
      assert (a + b)[1..] == a[1..] + b;
      CountCharAppend(a[1..], b, c);
    }
  }

  lemma {:induction false} CountCharAbsent(s: string, c: char)
    requires c !in s
    ensures CountChar(s, c) == 0
  {
    if s != [] {
      assert c !in s[1..];
      CountCharAbsent(s[1..], c);
    }
  }

  /** Counting distributes over a concatenation of five pieces. */
  lemma CountConcat(a: string, b: string, c: string, d: string, e: string, ch: char)
    ensures CountChar(a + b + c + d + e, ch) == CountChar(a, ch) + CountChar(b, ch) + CountChar(c, ch) + CountChar(d, ch) + CountChar(e, ch)
  {
    CountCharAppend(a + b + c + d, e, ch);
    CountCharAppend(a + b + c, d, ch);
    CountCharAppend(a + b, c, ch);
    CountCharAppend(a, b, ch);
  }

  lemma CountPair(a: string, b: string)
    ensures CountChar(a + b, '<') == CountChar(a, '<') + CountChar(b, '<')
    ensures CountChar(a + b, '>') == CountChar(a, '>') + CountChar(b, '>')
  {
    CountCharAppend(a, b, '<');
    CountCharAppend(a, b, '>');
  }

  // The tag delimiters in each piece of template text.
  lemma ParagraphOpenTags() ensures CountChar("<p><strong>", '<') == 2 && CountChar("<p><strong>", '>') == 2 {}
  lemma ParagraphMidTags() ensures CountChar(":</strong> ", '<') == 1 && CountChar(":</strong> ", '>') == 1 {}
  lemma ParagraphCloseTags() ensures CountChar("</p>", '<') == 1 && CountChar("</p>", '>') == 1 {}
  lemma HeadingOpenTags() ensures CountChar("\n    <h2>", '<') == 1 && CountChar("\n    <h2>", '>') == 1 {}
  lemma HeadingCloseTags() ensures CountChar("</h2>\n    ", '<') == 1 && CountChar("</h2>\n    ", '>') == 1 {}
  lemma TailTags() ensures CountChar("\n  ", '<') == 0 && CountChar("\n  ", '>') == 0 {}
  lemma HeadingTags() ensures '<' !in Heading && '>' !in Heading {}

  /** Each paragraph holds exactly the four tags of the template, whatever its label and value. */
  lemma RowDelimiters(row: (string, string))
    ensures CountChar(RowHtml(row), '<') == 4 && CountChar(RowHtml(row), '>') == 4
  {
    EscapeHtmlHasNoMarkup(row.0);
    EscapeHtmlHasNoMarkup(row.1);
    NoTags(EscapeHtml(row.0));
    NoTags(EscapeHtml(row.1));
    ParagraphTags(EscapeHtml(row.0), EscapeHtml(row.1));
  }

  lemma ParagraphTags(k: string, v: string)
    requires CountChar(k, '<') == 0 && CountChar(k, '>') == 0
    requires CountChar(v, '<') == 0 && CountChar(v, '>') == 0
    ensures CountChar("<p><strong>" + k + ":</strong> " + v + "</p>", '<') == 4
    ensures CountChar("<p><strong>" + k + ":</strong> " + v + "</p>", '>') == 4
  {
    ParagraphOpenTags();
    ParagraphMidTags();
    ParagraphCloseTags();
    CountConcat("<p><strong>", k, ":</strong> ", v, "</p>", '<');
    CountConcat("<p><strong>", k, ":</strong> ", v, "</p>", '>');
  }

  /** Text without tag delimiters counts none. */
  lemma NoTags(s: string)
    requires forall i :: 0 <= i < |s| ==> s[i] !in {'<', '>', '"', '\''}
    ensures CountChar(s, '<') == 0 && CountChar(s, '>') == 0
  {
    assert '<' !in s && '>' !in s;
    CountCharAbsent(s, '<');
    CountCharAbsent(s, '>');
  }

  lemma {:induction false} RowsDelimiters(rows: seq<(string, string)>)
    ensures CountChar(RowsHtml(rows), '<') == 4 * |rows| && CountChar(RowsHtml(rows), '>') == 4 * |rows|
  {
    if rows != [] {
      RowDelimiters(rows[0]);
      RowsDelimiters(rows[1..]);
      var first, rest := RowHtml(rows[0]), RowsHtml(rows[1..]);
      assert RowsHtml(rows) == first + rest;
      CountPair(first, rest);
    }
  }

  /**
   * No markup injection: the notification has exactly the tags of its
   * template, two for the heading and four per row, whatever the applicant
   * typed, because every label and value went through escapeHtml.
   */
  lemma MailHtmlHasOnlyTemplateTags(rows: seq<(string, string)>)
    ensures CountChar(MailHtml(rows), '<') == 2 + 4 * |rows|
    ensures CountChar(MailHtml(rows), '>') == 2 + 4 * |rows|
  {
    RowsDelimiters(rows);
    HeadingOpenTags();
    HeadingCloseTags();
    TailTags();
    HeadingTags();
    CountCharAbsent(Heading, '<');
    CountCharAbsent(Heading, '>');
    CountConcat("\n    <h2>", Heading, "</h2>\n    ", RowsHtml(rows), "\n  ", '<');
    CountConcat("\n    <h2>", Heading, "</h2>\n    ", RowsHtml(rows), "\n  ", '>');
  }

  /** The deployment settings read from the environment. */
  datatype Env = Env(
    turnstileSecret: Option<string>,
    smtpHost: Option<string>, smtpPort: Option<string>,
    smtpUser: Option<string>, smtpPass: Option<string>,
    emailFrom: Option<string>, emailTo: Option<string>)

  /** `Number(process.env.SMTP_PORT || "0")`. */
  function SmtpPort(env: Env): Number
  {
    ToNumber(if Present(env.smtpPort) then env.smtpPort.value else "0")
  }

  /** The six mail settings are all set, and the port is neither 0 nor NaN. */
  predicate MailConfigured(env: Env)
  {
    && Present(env.smtpHost) && NumberTruthy(SmtpPort(env))
    && Present(env.smtpUser) && Present(env.smtpPass)
    && Present(env.emailFrom) && Present(env.emailTo)
  }

  /** The JSON body of a response: `{"message": …}` or `{"error": …}`. */
  datatype Body = Message(text: string) | Failure(text: string)

  /** A response with a status, or an exception that escapes the handler (answered by the framework). */
  datatype Response = Respond(status: nat, body: Body) | Unhandled

  /** How the counter store answered: within the limit, over it, or with an error. */
  datatype RateGate = Allowed | Limited | StoreFailed

  /** Whether `sendMail` resolved or threw. */
  datatype SendResult = Delivered | SendThrew

  /** The request as the handler sees it: two header values and the result of parsing the body (None: not JSON). */
  datatype Request = Request(forwardedFor: Option<string>, contentLength: Option<string>, body: Option<Json>)

  /** The response, and the transport settings and message handed over for sending, if the handler got that far. */
  datatype Outcome = Outcome(response: Response, attempted: Option<(Transport, Mail)>)

  /** The declared `content-length` is present and `Number(...)` of it exceeds 50000. */
  predicate TooLarge(contentLength: Option<string>)
  {
    Present(contentLength) && GreaterThan(ToNumber(contentLength.value), MaxContentLength)
  }

  /** The timing gate fires: renderedAt is truthy and less than 3000 ms have passed since it. */
  predicate TooFast(renderedAt: Option<Number>, now: int)
  {
    renderedAt.Some? && NumberTruthy(renderedAt.value)
    && match renderedAt.value
      case Finite(v) => now as real - v < MinFillMillis
      case PosInfinity => true
      case _ => false
  }

  /** The transport settings: implicit TLS exactly on port 465. */
  function MailTransport(env: Env): Transport
    requires MailConfigured(env)
  {
    var port := SmtpPort(env);
    Transport(env.smtpHost.value, port, port == Finite(ImplicitTlsPort), env.smtpUser.value, env.smtpPass.value)
  }

  /** The notification for accepted data: fixed sender name, staff recipient, reply-to the applicant. */
  function NotificationMail(env: Env, d: ApplicationFormData, ip: string): Mail
    requires MailConfigured(env)
  {
    Mail("\"Valhalla Girls Application\" <" + env.emailFrom.value + ">", env.emailTo.value, d.email,
      "New submission", MailHtml(MailRows(d, ip)))
  }

  function InvalidSubmission(): Outcome
  {
    Outcome(Respond(400, Failure("Invalid submission")), None)
  }

  /**
   * POST: the gates in order, the first one that fails deciding the response.
   * The verification request itself, with the client address as `remoteip`,
   * is modelled only in `Turnstile.SiteverifyRequest`; here the service's
   * reply is an input.
   */
  function Post(req: Request, rate: RateGate, now: int, env: Env, reply: SiteverifyReply, send: SendResult): Outcome
  {
    var ip := GetClientIp(req.forwardedFor);
    match rate
    case StoreFailed => Outcome(Unhandled, None)
    case Limited => Outcome(Respond(429, Failure("Too many requests")), None)
    case Allowed =>
      if TooLarge(req.contentLength) then Outcome(Respond(413, Failure("Payload too large")), None)
      else match req.body
        case None => Outcome(Respond(400, Failure("Invalid JSON")), None)
        case Some(raw) =>
          match ValidatePayload(raw)
          case Err(_) => InvalidSubmission()
          case Ok(d) =>
            if TooFast(d.renderedAt, now) then InvalidSubmission()
            else match VerifyTurnstile(env.turnstileSecret, d.turnstileToken, reply)
              case Threw => Outcome(Unhandled, None)
              case Verified(false) => InvalidSubmission()
              case Verified(true) =>
                if !MailConfigured(env) then Outcome(Respond(500, Failure("Server misconfigured")), None)
                else
                  var sent := (MailTransport(env), NotificationMail(env, d, ip));
                  match send
                  case Delivered => Outcome(Respond(200, Message("OK")), Some(sent))
                  case SendThrew => Outcome(Respond(500, Failure("Failed to send")), Some(sent))
  }

  /** Every gate before the mail stage passes for this request. */
  predicate GatesPass(req: Request, rate: RateGate, now: int, env: Env, reply: SiteverifyReply)
  {
    && rate == Allowed && !TooLarge(req.contentLength) && req.body.Some?
    && ValidatePayload(req.body.value).Ok?
    && !TooFast(ValidatePayload(req.body.value).value.renderedAt, now)
    && VerifyTurnstile(env.turnstileSecret, ValidatePayload(req.body.value).value.turnstileToken, reply) == Verified(true)
  }

  /**
   * A mail is handed to the transport exactly when every gate passes and the
   * configuration is complete; the answer is 200 "OK" exactly when it is then
   * delivered, and 500 "Failed to send" when sending throws.
   */
  lemma PostSendsIffAllGatesPass(req: Request, rate: RateGate, now: int, env: Env, reply: SiteverifyReply, send: SendResult)
    ensures var o := Post(req, rate, now, env, reply, send);
      && (o.attempted.Some? <==> GatesPass(req, rate, now, env, reply) && MailConfigured(env))
      && (o.response == Respond(200, Message("OK")) <==> o.attempted.Some? && send == Delivered)
      && (o.attempted.Some? && send == SendThrew ==> o.response == Respond(500, Failure("Failed to send")))
      && (GatesPass(req, rate, now, env, reply) && !MailConfigured(env)
          ==> o == Outcome(Respond(500, Failure("Server misconfigured")), None))
  {
  }

  /**
   * The gates run in order and a failing one stops the rest: a store error
   * escapes (no fail-open), the limit answers 429 whatever the request, an
   * oversized declaration answers 413 before the body is looked at, and a
   * body that is not JSON answers 400 "Invalid JSON".
   */
  lemma PostEarlyGates(req: Request, rate: RateGate, now: int, env: Env, reply: SiteverifyReply, send: SendResult)
    ensures rate == StoreFailed ==> Post(req, rate, now, env, reply, send) == Outcome(Unhandled, None)
    ensures rate == Limited ==> Post(req, rate, now, env, reply, send) == Outcome(Respond(429, Failure("Too many requests")), None)
    ensures rate == Allowed && TooLarge(req.contentLength)
      ==> Post(req, rate, now, env, reply, send) == Outcome(Respond(413, Failure("Payload too large")), None)
    ensures rate == Allowed && !TooLarge(req.contentLength) && req.body.None?
      ==> Post(req, rate, now, env, reply, send) == Outcome(Respond(400, Failure("Invalid JSON")), None)
  {
  }

  /**
   * Client errors are generic: a rejected payload, a timing failure or a
   * failed verification all answer the same 400 "Invalid submission", and no
   * 400 answer carries the validator's own reason.
   */
  lemma ClientErrorsAreGeneric(req: Request, rate: RateGate, now: int, env: Env, reply: SiteverifyReply, send: SendResult)
    ensures var o := Post(req, rate, now, env, reply, send);
      o.response.Respond? && o.response.status == 400
      ==> o.response.body == Failure("Invalid JSON") || o.response.body == Failure("Invalid submission")
    ensures rate == Allowed && !TooLarge(req.contentLength) && req.body.Some?
      && ValidatePayload(req.body.value).Err?
      ==> Post(req, rate, now, env, reply, send) == InvalidSubmission()
    ensures rate == Allowed && !TooLarge(req.contentLength) && req.body.Some?
      && ValidatePayload(req.body.value).Ok?
      && TooFast(ValidatePayload(req.body.value).value.renderedAt, now)
      ==> Post(req, rate, now, env, reply, send) == InvalidSubmission()
    ensures rate == Allowed && !TooLarge(req.contentLength) && req.body.Some?
      && ValidatePayload(req.body.value).Ok?
      && !TooFast(ValidatePayload(req.body.value).value.renderedAt, now)
      && VerifyTurnstile(env.turnstileSecret, ValidatePayload(req.body.value).value.turnstileToken, reply) == Verified(false)
      ==> Post(req, rate, now, env, reply, send) == InvalidSubmission()
  {
  }

  /** Every answer the handler itself gives has one of the statuses 200, 400, 413, 429 or 500. */
  lemma PostStatuses(req: Request, rate: RateGate, now: int, env: Env, reply: SiteverifyReply, send: SendResult)
    ensures var r := Post(req, rate, now, env, reply, send).response;
      r.Respond? ==> r.status in {200, 400, 413, 429, 500}
  {
  }

  /** When a mail is handed over, it is the one built from the validated data and the client address. */
  lemma PostAttempt(req: Request, rate: RateGate, now: int, env: Env, reply: SiteverifyReply, send: SendResult)
    requires Post(req, rate, now, env, reply, send).attempted.Some?
    ensures GatesPass(req, rate, now, env, reply) && MailConfigured(env)
    ensures Post(req, rate, now, env, reply, send).attempted.value
      == (MailTransport(env), NotificationMail(env, ValidatePayload(req.body.value).value, GetClientIp(req.forwardedFor)))
  {
  }

  /**
   * What is handed to the transport: implicit TLS iff the port is 465, the
   * staff recipient, reply-to the applicant's e-mail, and an HTML body whose
   * rows are the escaped fields and address, with only the template's tags.
   */
  lemma SentMailContents(req: Request, rate: RateGate, now: int, env: Env, reply: SiteverifyReply, send: SendResult)
    requires Post(req, rate, now, env, reply, send).attempted.Some?
    ensures var (t, m) := Post(req, rate, now, env, reply, send).attempted.value;
      var d := ValidatePayload(req.body.value).value;
      var ip := GetClientIp(req.forwardedFor);
      && (t.secure <==> SmtpPort(env) == Finite(465.0))
      && t.host == env.smtpHost.value && t.user == env.smtpUser.value && t.pass == env.smtpPass.value
      && m.from == "\"Valhalla Girls Application\" <" + env.emailFrom.value + ">"
      && m.to == env.emailTo.value && m.replyTo == d.email && m.subject == "New submission"
      && m.html == MailHtml(MailRows(d, ip))
      && CountChar(m.html, '<') == 26 && CountChar(m.html, '>') == 26
  {
    PostAttempt(req, rate, now, env, reply, send);
    var d := ValidatePayload(req.body.value).value;
    MailHtmlHasOnlyTemplateTags(MailRows(d, GetClientIp(req.forwardedFor)));
  }

  /**
   * The timing gate: 2999 ms after rendering is too fast, 3000 ms is not, and
   * an absent renderedAt or a renderedAt of 0 skips the check altogether.
   */
  lemma TimingGateBoundaries(now: int)
    requires now > MinFillMillis as int
    ensures TooFast(Some(Finite(now as real - 2999.0)), now)
    ensures !TooFast(Some(Finite(now as real - 3000.0)), now)
    ensures !TooFast(None, now) && !TooFast(Some(Finite(0.0)), now)
  {
  }

  /**
   * The whole handler against the counter store: the client's counter is hit
   * once before anything else (when the store answers) and the response is
   * the gate sequence's, given the limiter's answer.
   */
  method HandlePost(store: CounterStore, req: Request, storeUp: bool, now: int, env: Env,
                    reply: SiteverifyReply, send: SendResult) returns (outcome: Outcome)
    modifies store
    ensures var ip := GetClientIp(req.forwardedFor);
      if storeUp then
        && store.entries == Hit(old(store.entries), ip, now).0
        && outcome == Post(req, if Hit(old(store.entries), ip, now).1 then Allowed else Limited, now, env, reply, send)
      else
        store.entries == old(store.entries) && outcome == Post(req, StoreFailed, now, env, reply, send)
  {
    var ip := GetClientIp(req.forwardedFor);
    var rate := StoreFailed;
    if storeUp {
      var allowed := RateLimitOrThrow(store, ip, now);
      rate := if allowed then Allowed else Limited;
    }
    outcome := Post(req, rate, now, env, reply, send);
  }
}
