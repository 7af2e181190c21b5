/**
 * The contact API route: rate limiting, body parsing, validation, the CMS
 * settings, the two e-mails, and the security and CORS decoration every
 * response gets. The CMS, the cookie store and the mail service are oracle
 * inputs; the rate limiter is the shared in-memory store.
 */
module ContactRoute {
  import opened Wrappers
  import opened JsString
  import opened Http
  import opened Security
  import opened Validation
  import RateLimiter
  import Locale

  // ---------------------------------------------------------------------------
  // Number to text

  function DigitChar(d: int): char
    requires 0 <= d < 10
  {
    ('0' as int + d) as char
  }

  /** The decimal digits of `n`. */
  function Digits(n: nat): (r: string)
    ensures |r| >= 1
    ensures forall i :: 0 <= i < |r| ==> '0' <= r[i] <= '9'
  {
    if n < 10 then [DigitChar(n)] else Digits(n / 10) + [DigitChar(n % 10)]
  }

  /** `n.toString()` for an integer `n`. */
  function IntToString(n: int): (r: string)
    ensures r != ""
  {
    if n < 0 then "-" + Digits(-n) else Digits(n)
  }

  /** The value of a string of decimal digits. */
  function DigitsValue(s: string): int
    requires forall i :: 0 <= i < |s| ==> '0' <= s[i] <= '9'
  {
    if s == [] then 0 else 10 * DigitsValue(s[..|s| - 1]) + (s[|s| - 1] as int - '0' as int)
  }

  /** The digits read back give the number: `toString` loses nothing. */
  lemma {:induction false} DigitsRoundTrip(n: nat)
    ensures DigitsValue(Digits(n)) == n
  {
    if n >= 10 {
      DigitsRoundTrip(n / 10);
      var s := Digits(n);
      assert s[..|s| - 1] == Digits(n / 10);
    }
  }

  // ---------------------------------------------------------------------------
  // Inputs and outputs

  /** The body as read: `req.json()` failed (`null`), or the parsed value. */
  datatype BodyRead = NotJson | JsonBody(value: Input)

  /** A falsy parsed body: `!body` holds. */
  predicate Falsy(v: Input) {
    v.Undefined? || v.Null? || v == Boolean(false) || v == Number(0) || v == Text("")
  }

  /** The first row of the settings group `contact_form_settings`. */
  datatype ContactRow = ContactRow(recipient: Option<string>, subjectTemplate: Option<string>, confirmationSubject: Option<string>)

  /** The settings document: fetching it threw, or its group (missing when the field is absent). */
  datatype SettingsOutcome = SettingsThrew | Settings(rows: Option<seq<ContactRow>>)

  /** A send: delivered, answered with an `error`, or rejected. */
  datatype SendOutcome = Sent | SendError | SendThrew

  datatype EmailContent = ContactEmail(name: string, email: string, message: string) | ConfirmationEmail(name: string)

  datatype Email = Email(from: string, to: seq<string>, subject: string, replyTo: Option<string>, content: EmailContent)

  /** What the route answers before decoration: status, JSON body, the headers it passes, the e-mails it sends. */
  datatype Reply = Reply(status: int, body: Json, init: map<Header, string>, emails: seq<Email>)

  const UnexpectedError := "An unexpected error occurred. Please try again later."

  // ---------------------------------------------------------------------------
  // The decision

  /** `email_subject_template?.replace("{{name}}", name) || "Contact form message from " + name`. */
  function Subject(template: Option<string>, name: string): string {
    var replaced := if template.Some? then ReplaceFirst(template.value, "{{name}}", name) else "";
    if replaced != "" then replaced else "Contact form message from " + name
  }

  function ConfirmationSubject(configured: Option<string>): string {
    if configured.Some? && configured.value != "" then configured.value else "Thank you for contacting us"
  }

  function Reply500(message: string): Reply {
    Reply(500, ErrorJson(message), map[], [])
  }

  /** The 429 answer: the wait, the limit, what remains and when the window resets. */
  function TooManyRequests(rate: RateLimiter.CheckResult): Reply {
    Reply(429,
      JObj([("error", JStr("Too many contact form submissions. Please try again later."))]
        + (if rate.retryAfter.Some? then [("retryAfter", JNum(rate.retryAfter.value))] else [])),
      map[
        RetryAfter := (if rate.retryAfter.Some? then IntToString(rate.retryAfter.value) else "900"),
        RateLimitLimit := "5",
        RateLimitRemaining := IntToString(rate.remaining),
        RateLimitReset := IntToString(rate.resetTime)],
      [])
  }

  /** The e-mail to the site owner. */
  function OwnerEmail(recipient: string, row: ContactRow, data: ContactForm): Email {
    Email("Contact Form <onboarding@resend.dev>", [recipient], Subject(row.subjectTemplate, data.name),
      Some(data.email), ContactEmail(data.name, data.email, data.message))
  }

  /** The confirmation to the sender. */
  function Confirmation(row: ContactRow, data: ContactForm): Email {
    Email("Cote Royale <onboarding@resend.dev>", [data.email], ConfirmationSubject(row.confirmationSubject),
      None, ConfirmationEmail(data.name))
  }

  /** The steps after validation: locale, settings, the owner e-mail, and the answer. */
  function AfterValidation(rate: RateLimiter.CheckResult, validation: ValidationResult,
                           cookie: Locale.CookieRead, settings: SettingsOutcome, owner: SendOutcome): Reply
  {
    match validation
    case Failure(errors) =>
      Reply(400, JObj([("error", JStr("Validation failed")), ("details", JArr(seq(|errors|, i requires 0 <= i < |errors| => JStr(errors[i]))))]), map[], [])
    case Success(data) =>
      if Locale.GetCurrentLocale(cookie).prismicLang.None? then Reply500("Language configuration error")
      else AfterSettings(rate, data, settings, owner)
  }

  /** The steps once the CMS language is known. */
  function AfterSettings(rate: RateLimiter.CheckResult, data: ContactForm, settings: SettingsOutcome, owner: SendOutcome): Reply {
    match settings
    case SettingsThrew => Reply500("Server configuration error")
    case Settings(None) => Reply500(UnexpectedError)
    case Settings(Some(rows)) =>
      var row := if |rows| > 0 then rows[0] else ContactRow(None, None, None);
      if row.recipient.None? || row.recipient.value == "" then Reply500("Server configuration error")
      else
        var ownerEmail := OwnerEmail(row.recipient.value, row, data);
        match owner
        case SendThrew => Reply(500, ErrorJson(UnexpectedError), map[], [ownerEmail])
        case SendError => Reply(500, ErrorJson("Failed to send message. Please try again later."), map[], [ownerEmail])
        case Sent =>
          Reply(200, JObj([("message", JStr("Message sent successfully"))]),
            map[
              RateLimitLimit := "5",
              RateLimitRemaining := IntToString(rate.remaining),
              RateLimitReset := IntToString(rate.resetTime)],
            [ownerEmail, Confirmation(row, data)])
  }

  /** The answer to a request whose client the limiter judged `rate`. */
  function Respond(rate: RateLimiter.CheckResult, body: BodyRead, isEmail: string -> bool,
                   cookie: Locale.CookieRead, settings: SettingsOutcome, owner: SendOutcome): Reply
  {
    if !rate.allowed then TooManyRequests(rate)
    else if body.NotJson? || Falsy(body.value) then Reply(400, ErrorJson("Invalid JSON data"), map[], [])
    else AfterValidation(rate, Validate(body.value, isEmail), cookie, settings, owner)
  }

  /**
   * The whole decision of `POST` on the rate-limit store `m`: the store after
   * the check and the answer. A client that cannot be identified gets the
   * catch-all 500 and the store is not touched.
   */
  function Answer(m: map<string, RateLimiter.Entry>, requestHeaders: RateLimiter.Headers, now: int, body: BodyRead,
                  isEmail: string -> bool, cookie: Locale.CookieRead, settings: SettingsOutcome, owner: SendOutcome)
    : (map<string, RateLimiter.Entry>, Reply)
  {
    match RateLimiter.GetClientIdentifier(requestHeaders)
    case None => (m, Reply500(UnexpectedError))
    case Some(id) =>
      var (m', rate) := RateLimiter.Step(m, id, now, RateLimiter.ContactFormConfig);
      (m', Respond(rate, body, isEmail, cookie, settings, owner))
  }

  // ---------------------------------------------------------------------------
  // The handlers

  /** `OPTIONS`: an empty 200 with the security and CORS headers. */
  method Options(siteUrl: Option<string>) returns (response: Response)
    ensures fresh(response)
    ensures response.status == 200 && response.body.None?
    ensures response.headers == Decorated(map[], siteUrl)
  {
    response := new Response(200, None, map[]);
    response := WithSecurityHeaders(response);
    response := WithCors(response, None, siteUrl);
  }

  /**
   * The decision of `POST`, before decoration: identify the client, check the
   * contact limiter, then validate and answer.
   */
  method Decide(limiter: RateLimiter.Limiter, requestHeaders: RateLimiter.Headers, now: int, body: BodyRead,
                isEmail: string -> bool, cookie: Locale.CookieRead, settings: SettingsOutcome, owner: SendOutcome)
    returns (reply: Reply)
    requires limiter.config == RateLimiter.ContactFormConfig
    modifies limiter.store
    ensures (limiter.store.entries, reply)
      == Answer(old(limiter.store.entries), requestHeaders, now, body, isEmail, cookie, settings, owner)
  {
    var clientId := RateLimiter.GetClientIdentifier(requestHeaders);
    if clientId.None? {
      return Reply500(UnexpectedError);
    }
    var rate := limiter.Check(clientId.value, now);
    reply := AnswerChecked(rate, body, isEmail, cookie, settings, owner);
  }

  /** The steps after the rate-limit check: the body, `validateContactForm`, then the rest. */
  method AnswerChecked(rate: RateLimiter.CheckResult, body: BodyRead, isEmail: string -> bool,
                       cookie: Locale.CookieRead, settings: SettingsOutcome, owner: SendOutcome)
    returns (reply: Reply)
    ensures reply == Respond(rate, body, isEmail, cookie, settings, owner)
  {
    if !rate.allowed {
      reply := TooManyRequests(rate);
    } else if body.NotJson? || Falsy(body.value) {
      reply := Reply(400, ErrorJson("Invalid JSON data"), map[], []);
    } else {
      var validation := ValidateContactForm(body.value, isEmail);
      reply := AfterValidation(rate, validation, cookie, settings, owner);
    }
  }

  /**
   * `POST`: the decision, sent as JSON and decorated with the security and
   * CORS headers. `siteUrl` is the configured site URL; the e-mails the route
   * hands to the mail service are returned beside the response.
   */
  method Post(limiter: RateLimiter.Limiter, requestHeaders: RateLimiter.Headers, now: int, body: BodyRead,
              isEmail: string -> bool, cookie: Locale.CookieRead, settings: SettingsOutcome, owner: SendOutcome,
              siteUrl: Option<string>)
    returns (response: Response, emails: seq<Email>)
    requires limiter.config == RateLimiter.ContactFormConfig
    modifies limiter.store
    ensures fresh(response)
    ensures var (entries, reply) := Answer(old(limiter.store.entries), requestHeaders, now, body, isEmail, cookie, settings, owner);
      limiter.store.entries == entries
      && response.status == reply.status && response.body == Some(reply.body)
      && response.headers == Decorated(JsonHeaders(reply.init), siteUrl) && emails == reply.emails
  {
    var reply := Decide(limiter, requestHeaders, now, body, isEmail, cookie, settings, owner);
    response := JsonResponse(reply.body, reply.status, reply.init);
    response := WithSecurityHeaders(response);
    response := WithCors(response, None, siteUrl);
    emails := reply.emails;
  }

  // ---------------------------------------------------------------------------
  // Properties

  /**
   * The limiter is consulted before the body is read: the store after a
   * request depends only on the client and the time, so an invalid request
   * spends quota like a valid one.
   */
  lemma QuotaSpentWhateverTheBody(m: map<string, RateLimiter.Entry>, requestHeaders: RateLimiter.Headers, now: int,
                                  body: BodyRead, isEmail: string -> bool, settings: SettingsOutcome, owner: SendOutcome,
                                  body': BodyRead, isEmail': string -> bool, settings': SettingsOutcome, owner': SendOutcome,
                                  cookie: Locale.CookieRead)
    ensures Answer(m, requestHeaders, now, body, isEmail, cookie, settings, owner).0
         == Answer(m, requestHeaders, now, body', isEmail', cookie, settings', owner').0
    ensures RateLimiter.GetClientIdentifier(requestHeaders).Some? ==>
      Answer(m, requestHeaders, now, body, isEmail, cookie, settings, owner).0
        == RateLimiter.Step(m, RateLimiter.GetClientIdentifier(requestHeaders).value, now, RateLimiter.ContactFormConfig).0
  {
  }

  /** A denied client gets 429 with the limiter's figures and no mail is sent. */
  lemma RateLimitedReply(rate: RateLimiter.CheckResult, body: BodyRead, isEmail: string -> bool,
                         cookie: Locale.CookieRead, settings: SettingsOutcome, owner: SendOutcome)
    requires !rate.allowed
    ensures var r := Respond(rate, body, isEmail, cookie, settings, owner);
      r.status == 429 && r.emails == []
      && r.init[RateLimitLimit] == "5"
      && r.init[RateLimitRemaining] == IntToString(rate.remaining)
      && r.init[RateLimitReset] == IntToString(rate.resetTime)
      && r.init[RetryAfter] == (if rate.retryAfter.Some? then IntToString(rate.retryAfter.value) else "900")
  {
  }

  /** A denial by the contact limiter always carries its own wait of at least a second: the "900" fallback is never used. */
  lemma RetryAfterFromLimiter(m: map<string, RateLimiter.Entry>, id: string, now: int, body: BodyRead,
                              isEmail: string -> bool, cookie: Locale.CookieRead,
                              settings: SettingsOutcome, owner: SendOutcome)
    requires !RateLimiter.Step(m, id, now, RateLimiter.ContactFormConfig).1.allowed
    ensures var rate := RateLimiter.Step(m, id, now, RateLimiter.ContactFormConfig).1;
      rate.retryAfter.Some? && rate.retryAfter.value >= 1
      && Respond(rate, body, isEmail, cookie, settings, owner).init[RetryAfter] == Digits(rate.retryAfter.value)
  {
    RateLimiter.RetryAfterAtLeastOneSecond(m, id, now, RateLimiter.ContactFormConfig);
  }

  /** The settings step answers 200 exactly when a recipient is configured and the owner e-mail is delivered, and sends mail exactly when a recipient is configured. */
  lemma AfterSettingsOutcome(rate: RateLimiter.CheckResult, data: ContactForm, settings: SettingsOutcome, owner: SendOutcome)
    ensures var r := AfterSettings(rate, data, settings, owner);
      var recipient := settings.Settings? && settings.rows.Some? && |settings.rows.value| > 0
        && settings.rows.value[0].recipient.Some? && settings.rows.value[0].recipient.value != "";
      (r.status == 200 <==> recipient && owner == Sent) && (r.emails != [] <==> recipient)
  {
  }

  /** The answer is 200 exactly when every step succeeds: allowed, a body, valid input, a recipient, and the owner e-mail delivered. */
  lemma SuccessIffAllStepsSucceed(rate: RateLimiter.CheckResult, body: BodyRead, isEmail: string -> bool,
                                  cookie: Locale.CookieRead, settings: SettingsOutcome, owner: SendOutcome)
    ensures Respond(rate, body, isEmail, cookie, settings, owner).status == 200 <==>
      rate.allowed && body.JsonBody? && !Falsy(body.value) && Validate(body.value, isEmail).Success?
      && settings.Settings? && settings.rows.Some? && |settings.rows.value| > 0
      && settings.rows.value[0].recipient.Some? && settings.rows.value[0].recipient.value != ""
      && owner == Sent
  {
    if rate.allowed && body.JsonBody? && !Falsy(body.value) {
      var validation := Validate(body.value, isEmail);
      assert Respond(rate, body, isEmail, cookie, settings, owner) == AfterValidation(rate, validation, cookie, settings, owner);
      if validation.Success? {
        LanguageErrorUnreachable(rate, validation, cookie, settings, owner);
        AfterSettingsOutcome(rate, validation.data, settings, owner);
      }
    }
  }

  /** Mail is handed to the mail service only once input, settings and recipient are all in order. */
  lemma EmailOnlyAfterRecipient(rate: RateLimiter.CheckResult, body: BodyRead, isEmail: string -> bool,
                                cookie: Locale.CookieRead, settings: SettingsOutcome, owner: SendOutcome)
    ensures Respond(rate, body, isEmail, cookie, settings, owner).emails != [] <==>
      rate.allowed && body.JsonBody? && !Falsy(body.value) && Validate(body.value, isEmail).Success?
      && settings.Settings? && settings.rows.Some? && |settings.rows.value| > 0
      && settings.rows.value[0].recipient.Some? && settings.rows.value[0].recipient.value != ""
  {
    if rate.allowed && body.JsonBody? && !Falsy(body.value) {
      var validation := Validate(body.value, isEmail);
      assert Respond(rate, body, isEmail, cookie, settings, owner) == AfterValidation(rate, validation, cookie, settings, owner);
      if validation.Success? {
        LanguageErrorUnreachable(rate, validation, cookie, settings, owner);
        AfterSettingsOutcome(rate, validation.data, settings, owner);
      }
    }
  }

  /** `getCurrentLocale` always yields a CMS language, so the language-configuration error is never returned. */
  lemma LanguageErrorUnreachable(rate: RateLimiter.CheckResult, validation: ValidationResult,
                                 cookie: Locale.CookieRead, settings: SettingsOutcome, owner: SendOutcome)
    requires validation.Success?
    ensures AfterValidation(rate, validation, cookie, settings, owner) == AfterSettings(rate, validation.data, settings, owner)
  {
    assert Locale.GetCurrentLocale(cookie).prismicLang.Some?;
  }

  /**
   * On success the owner gets the validated data with the sender as
   * reply-to, and the sender gets the confirmation; the confirmation's own
   * outcome is not an input, since the route never waits for it.
   */
  lemma SuccessSendsBothEmails(rate: RateLimiter.CheckResult, data: ContactForm, settings: SettingsOutcome, owner: SendOutcome)
    requires AfterSettings(rate, data, settings, owner).status == 200
    ensures var r := AfterSettings(rate, data, settings, owner);
      var row := settings.rows.value[0];
      owner == Sent && |r.emails| == 2
      && r.emails[0] == Email("Contact Form <onboarding@resend.dev>", [row.recipient.value],
                              Subject(row.subjectTemplate, data.name), Some(data.email),
                              ContactEmail(data.name, data.email, data.message))
      && r.emails[1] == Email("Cote Royale <onboarding@resend.dev>", [data.email],
                              ConfirmationSubject(row.confirmationSubject), None, ConfirmationEmail(data.name))
      && r.init[RateLimitRemaining] == IntToString(rate.remaining)
      && r.init[RateLimitReset] == IntToString(rate.resetTime)
  {
  }

  /** When the owner e-mail is not delivered the answer is 500 and the confirmation is never attempted. */
  lemma OwnerFailureSkipsConfirmation(rate: RateLimiter.CheckResult, data: ContactForm, settings: SettingsOutcome, owner: SendOutcome)
    requires owner != Sent
    ensures var r := AfterSettings(rate, data, settings, owner);
      r.status == 500 && |r.emails| <= 1 && forall e :: e in r.emails ==> e.content.ContactEmail?
  {
    if settings.Settings? && settings.rows.Some? {
      var rows := settings.rows.value;
      var row := if |rows| > 0 then rows[0] else ContactRow(None, None, None);
      if row.recipient.Some? && row.recipient.value != "" {
        var ownerEmail := OwnerEmail(row.recipient.value, row, data);
        assert AfterSettings(rate, data, settings, owner).emails == [ownerEmail];
      }
    }
  }

  /** A validation failure is answered 400 with exactly the validator's messages, in order. */
  lemma ValidationFailureDetails(rate: RateLimiter.CheckResult, errors: seq<string>,
                                 cookie: Locale.CookieRead, settings: SettingsOutcome, owner: SendOutcome)
    ensures var r := AfterValidation(rate, Failure(errors), cookie, settings, owner);
      r.status == 400 && r.emails == []
      && r.body.JObj? && |r.body.fields| == 2 && r.body.fields[1].1.JArr?
      && |r.body.fields[1].1.items| == |errors|
      && forall i :: 0 <= i < |errors| ==> r.body.fields[1].1.items[i] == JStr(errors[i])
  {
  }

  /** The subject falls back to the default when there is no template, or when it is empty. */
  lemma SubjectFallback(template: Option<string>, name: string)
    requires template.None? || template.value == ""
    ensures Subject(template, name) == "Contact form message from " + name
  {
  }

  /** In `pre + "{{name}}" + post`, with no placeholder starting inside `pre`, the first placeholder is the one after `pre`. */
  lemma PlaceholderAfter(pre: string, post: string)
    requires forall j :: 0 <= j < |pre| ==> !OccursAt(pre + "{{name}}", j, "{{name}}")
    ensures var t := pre + "{{name}}" + post;
      IndexOf(t, "{{name}}", 0) == Some(|pre|) && t[..|pre|] == pre && t[|pre| + 8..] == post
  {
    var t := pre + "{{name}}" + post;
    assert t[..|pre| + 8] == pre + "{{name}}";
    assert OccursAt(t, |pre|, "{{name}}") by {
      assert t[|pre|..|pre| + 8] == "{{name}}";
    }
    forall j | 0 <= j < |pre| ensures !OccursAt(t, j, "{{name}}") {
      assert !OccursAt(pre + "{{name}}", j, "{{name}}");
      assert (pre + "{{name}}")[j..j + 8] == t[j..j + 8];
    }
    assert t[..|pre|] == pre && t[|pre| + 8..] == post;
  }

  /** A template with `{{name}}` gets a `$`-free, non-empty name in place of its first occurrence. */
  lemma SubjectNamesSender(pre: string, post: string, name: string)
    requires forall j :: 0 <= j < |pre| ==> !OccursAt(pre + "{{name}}", j, "{{name}}")
    requires '$' !in name && name != ""
    ensures Subject(Some(pre + "{{name}}" + post), name) == pre + name + post
  {
    var t := pre + "{{name}}" + post;
    PlaceholderAfter(pre, post);
    LiteralSubstitution(name, "{{name}}", t[..|pre|], t[|pre| + 8..]);
  }

  /**
   * The name is used as a replacement pattern: `$&` in it stands for the
   * matched `{{name}}`, so a sender called `$&` leaves the placeholder in the subject.
   */
  lemma SubjectExpandsDollarPatterns()
    ensures Subject(Some("New message from {{name}}"), "$&") == "New message from {{name}}"
  {
    var t := "New message from {{name}}";
    PlaceholderAtSeventeen();
    assert Substitution("$&", "{{name}}", t[..17], t[25..]) == "{{name}}" by {
      assert Substitution([], "{{name}}", t[..17], t[25..]) == [];
    }
    assert t[..17] + "{{name}}" + t[25..] == t;
  }

  /** In the default owner subject the placeholder first occurs right after "New message from ". */
  lemma PlaceholderAtSeventeen()
    ensures IndexOf("New message from {{name}}", "{{name}}", 0) == Some(17)
  {
    var t := "New message from {{name}}";
    assert t[..17] == "New message from ";
    assert t[17..25] == "{{name}}";
    FirstOccurrence(t, "{{name}}", 17);
  }

  /**
   * The subject with the name inserted as plain text, as
   * `replace("{{name}}", () => name)` inserts it.
   */
  function LiteralSubject(template: Option<string>, name: string): string {
    var replaced := if template.Some? then ReplaceFirstLiteral(template.value, "{{name}}", name) else "";
    if replaced != "" then replaced else "Contact form message from " + name
  }

  /** With the name inserted as plain text, every name, `$` patterns included, replaces the first placeholder. */
  lemma LiteralSubjectNamesSender(pre: string, post: string, name: string)
    requires forall j :: 0 <= j < |pre| ==> !OccursAt(pre + "{{name}}", j, "{{name}}")
    requires pre + name + post != ""
    ensures LiteralSubject(Some(pre + "{{name}}" + post), name) == pre + name + post
  {
    PlaceholderAfter(pre, post);
  }

  /** With the name inserted as plain text, a sender called `$&` is named in the subject. */
  lemma LiteralSubjectKeepsDollarName()
    ensures LiteralSubject(Some("New message from {{name}}"), "$&") == "New message from $&"
  {
    var t := "New message from {{name}}";
    PlaceholderAtSeventeen();
    assert t[..17] + "$&" + t[25..] == "New message from $&";
  }
}
