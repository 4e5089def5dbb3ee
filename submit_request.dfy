/**
  The request-intake endpoint (`POST /api/submit-request`) as a decision
  over its inputs: the parsed JSON body (or a failure to parse it), the
  configured webhook URL, and what the webhook call turned out to do. It
  answers with the HTTP reply and the message it posted, if it posted one.
 */
module SubmitRequest {
  import opened Wrappers
  import opened Strings

  /**
    A body field as the handler meets it: absent (`undefined` or `null`),
    a string, or some other JSON value, which is truthy unless it is `0` or
    `false`.
   */
  datatype Field = Missing | Text(text: string) | NonText(truthy: bool)

  datatype Body = Body(name: Field, email: Field, phone: Field, requestDetails: Field)

  /** The request body: unparsable (or JSON `null`, whose first field access throws) or a parsed value. */
  datatype Payload = Unparsable | Parsed(body: Body)

  /**
    What the webhook call did: answered with a 2xx status; answered with
    another status, its body then read successfully or not; or the call
    itself threw (network failure).
   */
  datatype WebhookOutcome = Delivered | Refused(bodyReadable: bool) | Unreachable

  /** The JSON reply `{success, error?}` and its HTTP status. */
  datatype Reply = Reply(status: int, success: bool, error: Option<string>)

  /** The webhook call: the URL and the message content. */
  datatype Post = Post(url: string, content: string)

  datatype Outcome = Outcome(reply: Reply, posted: Option<Post>)

  const NameRequired: string := "Name is required."
  const PhoneRequired: string := "Phone is required."
  const DetailsRequired: string := "Request details are required."
  const ConfigurationError: string := "Server configuration error. Please contact support."
  const SendFailed: string := "Failed to send request. Please try again later."
  const UnexpectedError: string := "An unexpected error occurred. Please try again."
  const NotProvided: string := "Not provided"
  const Fence: string := "```"

  /** The result of testing `!field || !field.trim()`. */
  datatype Check = Blank | Filled(value: string) | Throws

  /**
    A required field: blank when absent, falsy or white space only; a
    `TypeError` when it is a truthy non-string (it has no `trim`); otherwise
    the string itself.
   */
  function CheckRequired(field: Field): (c: Check)
    ensures c == Blank <==> field.Missing? || (field.NonText? && !field.truthy) || (field.Text? && AllWhiteSpace(field.text))
    ensures c == Throws <==> field.NonText? && field.truthy
    ensures c.Filled? ==> field == Text(c.value) && Trim(c.value) != []
  {
    match field
    case Missing => Blank
    case NonText(truthy) => if truthy then Throws else Blank
    case Text(s) => if s == "" || Trim(s) == "" then Blank else Filled(s)
  }

  /** The three required fields, once they have passed validation. */
  datatype Validated = Validated(name: string, phone: string, requestDetails: string)

  /** Why validation stopped: a field error reported with status 400, or a thrown `TypeError`. */
  datatype Invalid = FieldError(message: string) | TypeError

  /** Validation in source order (name, phone, request details); the first failure wins. */
  function Validate(body: Body): (r: Result<Validated, Invalid>)
    ensures r.Success? <==> CheckRequired(body.name).Filled? && CheckRequired(body.phone).Filled? && CheckRequired(body.requestDetails).Filled?
    ensures r.Success? ==> r.value == Validated(CheckRequired(body.name).value, CheckRequired(body.phone).value, CheckRequired(body.requestDetails).value)
    ensures r == Failure(FieldError(NameRequired)) <==> CheckRequired(body.name) == Blank
    ensures r == Failure(FieldError(PhoneRequired)) <==> CheckRequired(body.name).Filled? && CheckRequired(body.phone) == Blank
    ensures r == Failure(FieldError(DetailsRequired)) <==>
      CheckRequired(body.name).Filled? && CheckRequired(body.phone).Filled? && CheckRequired(body.requestDetails) == Blank
    ensures r.Failure? && r.error.FieldError? ==> r.error.message in {NameRequired, PhoneRequired, DetailsRequired}
    ensures r == Failure(TypeError) <==>
      || CheckRequired(body.name) == Throws
      || (CheckRequired(body.name).Filled? && CheckRequired(body.phone) == Throws)
      || (CheckRequired(body.name).Filled? && CheckRequired(body.phone).Filled? && CheckRequired(body.requestDetails) == Throws)
  {
    match CheckRequired(body.name)
    case Blank => Failure(FieldError(NameRequired))
    case Throws => Failure(TypeError)
    case Filled(name) =>
      match CheckRequired(body.phone)
      case Blank => Failure(FieldError(PhoneRequired))
      case Throws => Failure(TypeError)
      case Filled(phone) =>
        match CheckRequired(body.requestDetails)
        case Blank => Failure(FieldError(DetailsRequired))
        case Throws => Failure(TypeError)
        case Filled(details) => Success(Validated(name, phone, details))
  }

  /**
    The email shown in the message, `email?.trim() || 'Not provided'`:
    `None` when the field is a non-string, whose missing `trim` throws.
   */
  function EmailShown(email: Field): (shown: Option<string>)
    ensures email.Missing? ==> shown == Some(NotProvided)
    ensures email.NonText? <==> shown.None?
    ensures email.Text? && AllWhiteSpace(email.text) ==> shown == Some(NotProvided)
    ensures email.Text? && !AllWhiteSpace(email.text) ==> shown == Some(Trim(email.text)) && shown.value != []
  {
    match email
    case Missing => Some(NotProvided)
    case NonText(_) => None
    case Text(s) => if Trim(s) != "" then Some(Trim(s)) else Some(NotProvided)
  }

  /** The lines of the message posted to the webhook. */
  function MessageLines(fields: Validated, email: string): seq<string>
  {
    [ "**New Tamr Request**",
      "",
      "- Name: " + Trim(fields.name),
      "- Email: " + email,
      "- Phone: " + Trim(fields.phone),
      "- Request:",
      Fence,
      Trim(fields.requestDetails),
      Fence ]
  }

  /**
    The message posted to the webhook, its lines joined by line feeds: the
    template with the trimmed name, the shown email, the trimmed phone and
    the trimmed details filled in. It opens with the title line and ends with
    the trimmed details between two lines of three backticks.
   */
  function DiscordContent(fields: Validated, email: string): (content: string)
    ensures content ==
      "**New Tamr Request**" + "\n" + "\n" + ("- Name: " + Trim(fields.name)) + "\n" + ("- Email: " + email)
      + "\n" + ("- Phone: " + Trim(fields.phone)) + "\n" + "- Request:" + "\n" + Fence + "\n" + Trim(fields.requestDetails) + "\n" + Fence
    ensures StartsWith(content, "**New Tamr Request**\n")
    ensures EndsWith(content, Fence + "\n" + Trim(fields.requestDetails) + "\n" + Fence)
  {
    MessageText(fields, email);
    TitleFirst(fields, email);
    DetailsFenced(fields, email);
    Join(MessageLines(fields, email), '\n')
  }

  /** The webhook URL is set and non-empty. */
  predicate Configured(webhookUrl: Option<string>) {
    webhookUrl.Some? && webhookUrl.value != ""
  }

  /** A failed reply. */
  function Fail(status: int, message: string): Reply {
    Reply(status, false, Some(message))
  }

  /** The reply once the webhook call has been made. */
  function AfterWebhook(outcome: WebhookOutcome): (reply: Reply)
    ensures reply.success <==> outcome == Delivered
    ensures outcome == Delivered ==> reply == Reply(200, true, None)
    ensures outcome == Refused(true) ==> reply == Fail(500, SendFailed)
    ensures outcome == Refused(false) || outcome == Unreachable ==> reply == Fail(500, UnexpectedError)
  {
    match outcome
    case Delivered => Reply(200, true, None)
    case Refused(bodyReadable) => if bodyReadable then Fail(500, SendFailed) else Fail(500, UnexpectedError)
    case Unreachable => Fail(500, UnexpectedError)
  }

  /** Every check passed and the message could be formatted, so the webhook is called. */
  predicate WillPost(payload: Payload, webhookUrl: Option<string>) {
    && payload.Parsed?
    && Validate(payload.body).Success?
    && Configured(webhookUrl)
    && EmailShown(payload.body.email).Some?
  }

  /**
    The handler. It succeeds exactly when the body parses, the three fields
    are filled, the URL is configured, the email field is absent or a
    string, and the webhook accepts the message; validation failures are
    400, every other failure 500; the webhook is called only after every
    check has passed, with the formatted message.
   */
  function Handle(payload: Payload, webhookUrl: Option<string>, webhook: WebhookOutcome): (out: Outcome)
    ensures out.reply.success <==> WillPost(payload, webhookUrl) && webhook == Delivered
    ensures out.reply.success ==> out.reply == Reply(200, true, None)
    ensures !out.reply.success ==> out.reply.error.Some? && (out.reply.status == 400 || out.reply.status == 500)
    ensures out.reply.status == 400 <==> payload.Parsed? && Validate(payload.body).Failure? && Validate(payload.body).error.FieldError?
    ensures out.reply.status == 400 ==> out.reply.error == Some(Validate(payload.body).error.message)
    ensures out.reply.error == Some(ConfigurationError) <==>
      payload.Parsed? && Validate(payload.body).Success? && !Configured(webhookUrl)
    ensures out.posted.Some? <==> WillPost(payload, webhookUrl)
    ensures out.posted.Some? ==>
      out.posted.value == Post(webhookUrl.value, DiscordContent(Validate(payload.body).value, EmailShown(payload.body.email).value))
    ensures out.posted.Some? ==> out.reply == AfterWebhook(webhook)
    ensures payload.Unparsable? ==> out == Outcome(Fail(500, UnexpectedError), None)
    ensures payload.Parsed? && Validate(payload.body) == Failure(TypeError) ==> out == Outcome(Fail(500, UnexpectedError), None)
    ensures payload.Parsed? && Validate(payload.body).Success? && Configured(webhookUrl) && payload.body.email.NonText? ==>
      out == Outcome(Fail(500, UnexpectedError), None)
  {
    match payload
    case Unparsable => Outcome(Fail(500, UnexpectedError), None)
    case Parsed(body) =>
      match Validate(body)
      case Failure(FieldError(message)) => Outcome(Fail(400, message), None)
      case Failure(TypeError) => Outcome(Fail(500, UnexpectedError), None)
      case Success(fields) =>
        if !Configured(webhookUrl) then Outcome(Fail(500, ConfigurationError), None)
        else
          match EmailShown(body.email)
          case None => Outcome(Fail(500, UnexpectedError), None)
          case Some(email) =>
            Outcome(AfterWebhook(webhook), Some(Post(webhookUrl.value, DiscordContent(fields, email))))
  }

  /** A missing or blank name is reported as such, whatever the other fields and the environment hold. */
  lemma NameFirst(body: Body, webhookUrl: Option<string>, webhook: WebhookOutcome)
    requires body.name.Missing? || (body.name.Text? && AllWhiteSpace(body.name.text))
    ensures Handle(Parsed(body), webhookUrl, webhook) == Outcome(Fail(400, NameRequired), None)
  {
  }

  /** Without a webhook URL a valid request fails with the generic configuration error and nothing is sent. */
  lemma MissingConfiguration(body: Body, webhookUrl: Option<string>, webhook: WebhookOutcome)
    requires Validate(body).Success? && !Configured(webhookUrl)
    ensures Handle(Parsed(body), webhookUrl, webhook) == Outcome(Fail(500, ConfigurationError), None)
  {
  }

  /**
    The email is never checked for format: any string email, however
    malformed, goes through when the rest is valid and the webhook accepts.
   */
  lemma EmailNotValidated(body: Body, url: string, email: string)
    requires Validate(body).Success? && url != [] && body.email == Text(email)
    ensures Handle(Parsed(body), Some(url), Delivered).reply == Reply(200, true, None)
  {
  }

  /** `{name: "A", phone: "555", requestDetails: "help"}` with a working webhook gives `{success: true}` and 200. */
  lemma AcceptedExample(body: Body, url: string)
    requires body == Body(Text("A"), Missing, Text("555"), Text("help")) && url != []
    ensures Handle(Parsed(body), Some(url), Delivered).reply == Reply(200, true, None)
  {
    assert !IsWhiteSpace(body.name.text[0]);
    assert !IsWhiteSpace(body.phone.text[0]);
    assert !IsWhiteSpace(body.requestDetails.text[0]);
  }

  /** The same request answered by the webhook with a non-2xx status such as 503 gives the retry message and 500. */
  lemma RefusedExample(body: Body, url: string)
    requires body == Body(Text("A"), Missing, Text("555"), Text("help")) && url != []
    ensures Handle(Parsed(body), Some(url), Refused(true)).reply == Fail(500, SendFailed)
  {
    AcceptedExample(body, url);
  }

  /**
    The posted message, read line by line: a title, a blank line, the
    trimmed name, the shown email, the trimmed phone, a `- Request:` line,
    then the trimmed details (which may span lines) between two lines of
    three backticks. This needs the one-line fields to hold no line feed.
   */
  lemma {:induction false} MessageLayout(fields: Validated, email: string)
    requires '\n' !in Trim(fields.name) && '\n' !in email && '\n' !in Trim(fields.phone)
    ensures Split(DiscordContent(fields, email), '\n') ==
      [ "**New Tamr Request**", "", "- Name: " + Trim(fields.name), "- Email: " + email,
        "- Phone: " + Trim(fields.phone), "- Request:", Fence ]
      + Split(Trim(fields.requestDetails), '\n') + [Fence]
  {
    var lines := MessageLines(fields, email);
    SingleLines(fields, email);
    SplitOfJoin(lines, '\n');
    SplitEachAroundOne(lines[..7], Trim(fields.requestDetails), Fence, '\n');
  }

  /** The message is seven one-line lines, the details, and a closing fence. */
  lemma SingleLines(fields: Validated, email: string)
    requires '\n' !in Trim(fields.name) && '\n' !in email && '\n' !in Trim(fields.phone)
    ensures var lines := MessageLines(fields, email);
      && lines == lines[..7] + [Trim(fields.requestDetails)] + [Fence]
      && lines[..7] == [ "**New Tamr Request**", "", "- Name: " + Trim(fields.name), "- Email: " + email,
                         "- Phone: " + Trim(fields.phone), "- Request:", Fence ]
      && forall line :: line in lines[..7] ==> '\n' !in line
  {
    var lines := MessageLines(fields, email);
    var head := [ "**New Tamr Request**", "", "- Name: " + Trim(fields.name), "- Email: " + email,
                  "- Phone: " + Trim(fields.phone), "- Request:", Fence ];
    assert lines[..7] == head;
    OneLineHead(head, Trim(fields.name), email, Trim(fields.phone));
  }

  lemma OneLineHead(head: seq<string>, name: string, email: string, phone: string)
    requires '\n' !in name && '\n' !in email && '\n' !in phone
    requires head == [ "**New Tamr Request**", "", "- Name: " + name, "- Email: " + email,
                       "- Phone: " + phone, "- Request:", Fence ]
    ensures forall line :: line in head ==> '\n' !in line
  {
    assert '\n' !in "**New Tamr Request**" && '\n' !in "- Request:" && '\n' !in Fence;
    assert '\n' !in "- Name: " + name && '\n' !in "- Email: " + email && '\n' !in "- Phone: " + phone;
  }

  /** Splitting single-piece parts around one part that may span several pieces. */
  lemma SplitEachAroundOne(before: seq<string>, middle: string, last: string, sep: char)
    requires forall p :: p in before ==> sep !in p
    requires sep !in last
    ensures SplitEach(before + [middle] + [last], sep) == before + Split(middle, sep) + [last]
  {
    SplitEachAppend(before + [middle], [last], sep);
    SplitEachAppend(before, [middle], sep);
    SplitEachWithoutSeparator(before, sep);
    SplitEachWithoutSeparator([last], sep);
    assert SplitEach([middle], sep) == Split(middle, sep);
  }

  /** The joined lines spell out the template, one line feed between each pair of lines. */
  lemma MessageText(fields: Validated, email: string)
    ensures Join(MessageLines(fields, email), '\n') ==
      "**New Tamr Request**" + "\n" + "\n" + ("- Name: " + Trim(fields.name)) + "\n" + ("- Email: " + email)
      + "\n" + ("- Phone: " + Trim(fields.phone)) + "\n" + "- Request:" + "\n" + Fence + "\n" + Trim(fields.requestDetails) + "\n" + Fence
  {
    var l := MessageLines(fields, email);
    JoinNine(l, '\n');
    assert l[0] + "\n" + l[1] == l[0] + "\n";
  }

  /** Nine lines joined: each line followed by the separator, except the last. */
  lemma JoinNine(l: seq<string>, sep: char)
    requires |l| == 9
    ensures Join(l, sep) == l[0] + [sep] + l[1] + [sep] + l[2] + [sep] + l[3] + [sep] + l[4] + [sep] + l[5] + [sep] + l[6] + [sep] + l[7] + [sep] + l[8]
  {
    assert Join(l[7..], sep) == l[7] + [sep] + l[8];
    assert Join(l[6..], sep) == l[6] + [sep] + Join(l[7..], sep);
    assert Join(l[5..], sep) == l[5] + [sep] + Join(l[6..], sep);
    assert Join(l[4..], sep) == l[4] + [sep] + Join(l[5..], sep);
    assert Join(l[3..], sep) == l[3] + [sep] + Join(l[4..], sep);
    assert Join(l[2..], sep) == l[2] + [sep] + Join(l[3..], sep);
    assert Join(l[1..], sep) == l[1] + [sep] + Join(l[2..], sep);
  }

  /** The joined lines open with the title line. */
  lemma TitleFirst(fields: Validated, email: string)
    ensures StartsWith(Join(MessageLines(fields, email), '\n'), "**New Tamr Request**\n")
  {
    var lines := MessageLines(fields, email);
    var title := "**New Tamr Request**\n";
    var content := lines[0] + "\n" + Join(lines[1..], '\n');
    assert content[..|title|] == title;
  }

  /** The joined lines end with a backtick line, the trimmed details, and another backtick line. */
  lemma {:induction false} DetailsFenced(fields: Validated, email: string)
    ensures EndsWith(Join(MessageLines(fields, email), '\n'), Fence + "\n" + Trim(fields.requestDetails) + "\n" + Fence)
  {
    var lines := MessageLines(fields, email);
    var tail := Fence + "\n" + Trim(fields.requestDetails) + "\n" + Fence;
    assert lines == lines[..6] + lines[6..];
    JoinAppend(lines[..6], lines[6..], '\n');
    var d := Trim(fields.requestDetails);
    assert lines[6..] == [Fence, d, Fence];
    assert [Fence, d, Fence][1..] == [d, Fence];
    assert Join([d, Fence], '\n') == d + "\n" + Fence;
    assert Join(lines[6..], '\n') == Fence + "\n" + (d + "\n" + Fence);
    var content := Join(lines[..6], '\n') + "\n" + tail;
    assert content[|content| - |tail|..] == tail;
  }
}
