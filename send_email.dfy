/**
 * The server action that mails a contact message (app/actions/send-email.ts): the message
 * is assembled from the form and the environment, and the outcome of the transport is
 * mapped to a fixed success or failure answer. The transport (nodemailer) is an input:
 * it either completes or throws.
 */
module SendEmail {
  import opened Wrappers
  import opened Strings

  /** The four fields of the contact form. */
  datatype ContactFormData = ContactFormData(name: string, email: string, subject: string, message: string)

  /** The environment variables the message depends on; None when unset. */
  datatype Env = Env(emailFrom: Option<string>, emailTo: Option<string>, emailUser: Option<string>)

  /** `mailOptions`; `to` is None when it evaluates to `undefined`. */
  datatype MailOptions = MailOptions(
    from: string,
    to: Option<string>,
    replyTo: string,
    subject: string,
    text: string,
    html: string)

  /** What the action returns. */
  datatype SendResult = SendResult(success: bool, message: string)

  /** What the transport did with the message. */
  datatype TransportOutcome = Delivered | Threw

  const SuccessMessage: string := "Email sent successfully!"
  const FailureMessage: string := "Failed to send email. Please try again later."

  /** JavaScript truthiness of an optional string: set and non-empty. */
  predicate Truthy(v: Option<string>)
  {
    v.Some? && v.value != ""
  }

  /** A possibly-unset variable inside a template string: unset prints as "undefined". */
  function Interpolate(v: Option<string>): string
  {
    if v.Some? then v.value else "undefined"
  }

  /** `EMAIL_FROM || "Portfolio Contact" <EMAIL_USER>`. */
  function Sender(env: Env): (from: string)
    ensures Truthy(env.emailFrom) ==> from == env.emailFrom.value
    ensures !Truthy(env.emailFrom) ==> from == "\"Portfolio Contact\" <" + Interpolate(env.emailUser) + ">"
  {
    if Truthy(env.emailFrom) then env.emailFrom.value
    else "\"Portfolio Contact\" <" + Interpolate(env.emailUser) + ">"
  }

  /** `EMAIL_TO || EMAIL_USER`. */
  function Recipient(env: Env): (to: Option<string>)
    ensures Truthy(env.emailTo) ==> to == env.emailTo
    ensures !Truthy(env.emailTo) ==> to == env.emailUser
    ensures to.None? <==> !Truthy(env.emailTo) && env.emailUser.None?
    ensures to.Some? ==> to == env.emailTo || to == env.emailUser
  {
    if Truthy(env.emailTo) then env.emailTo else env.emailUser
  }

  const TextPart1: string := "\n        Name: "
  const TextPart2: string := "\n        Email: "
  const TextPart3: string := "\n        \n        Message:\n        "
  const TextPart4: string := "\n      "

  /** The plain-text body. */
  function TextBody(form: ContactFormData): string
  {
    TextPart1 + form.name + TextPart2 + form.email + TextPart3 + form.message + TextPart4
  }

  const HtmlPart1: string :=
    "\n        <div style=\"font-family: Arial, sans-serif; padding: 20px; max-width: 600px;\">" +
    "\n          <h2 style=\"color: #3b82f6;\">New Portfolio Contact Message</h2>" +
    "\n          <p><strong>From:</strong> "
  const HtmlPart2: string := "</p>\n          <p><strong>Email:</strong> "
  const HtmlPart3: string := "</p>\n          <p><strong>Subject:</strong> "
  const HtmlPart4: string :=
    "</p>" +
    "\n          <div style=\"margin-top: 20px; padding: 15px; background-color: #f8fafc; border-radius: 5px;\">" +
    "\n            <p><strong>Message:</strong></p>" +
    "\n            <p>"
  const HtmlPart5: string := "</p>\n          </div>\n        </div>\n      "

  /** The HTML body: the message's newlines become `<br>`, everything else is inserted as is. */
  function HtmlBody(form: ContactFormData): string
  {
    HtmlPart1 + form.name + HtmlPart2 + form.email + HtmlPart3 + form.subject + HtmlPart4
      + ReplaceNewlines(form.message) + HtmlPart5
  }

  function MailOptionsFor(form: ContactFormData, env: Env): (m: MailOptions)
    ensures m.replyTo == form.email
    ensures m.subject == "Portfolio Contact: " + form.subject
    ensures m.to == Recipient(env) && m.from == Sender(env)
  {
    MailOptions(Sender(env), Recipient(env), form.email, "Portfolio Contact: " + form.subject,
                TextBody(form), HtmlBody(form))
  }

  /** The plain-text body carries the name, the email and the message verbatim, each after its label. */
  lemma TextCarriesFields(form: ContactFormData)
    ensures OccursAt(TextBody(form), form.name, |TextPart1|)
    ensures OccursAt(TextBody(form), form.email, |TextPart1 + form.name + TextPart2|)
    ensures OccursAt(TextBody(form), form.message, |TextPart1 + form.name + TextPart2 + form.email + TextPart3|)
  {
    FieldsInTemplate(TextPart1, form.name, TextPart2, form.email, TextPart3, form.message, TextPart4);
  }

  /** In a template with three interpolated fields, each field stands right after its prefix. */
  lemma FieldsInTemplate(p1: string, f1: string, p2: string, f2: string, p3: string, f3: string, p4: string)
    ensures OccursAt(p1 + f1 + p2 + f2 + p3 + f3 + p4, f1, |p1|)
    ensures OccursAt(p1 + f1 + p2 + f2 + p3 + f3 + p4, f2, |p1 + f1 + p2|)
    ensures OccursAt(p1 + f1 + p2 + f2 + p3 + f3 + p4, f3, |p1 + f1 + p2 + f2 + p3|)
  {
    var t := p1 + f1 + p2 + f2 + p3 + f3 + p4;
    assert OccursAt(t, f1, |p1|) by {
      assert t == p1 + f1 + (p2 + f2 + p3 + f3 + p4);
      OccursInMiddle(p1, f1, p2 + f2 + p3 + f3 + p4);
    }
    assert OccursAt(t, f2, |p1 + f1 + p2|) by {
      assert t == (p1 + f1 + p2) + f2 + (p3 + f3 + p4);
      OccursInMiddle(p1 + f1 + p2, f2, p3 + f3 + p4);
    }
    assert OccursAt(t, f3, |p1 + f1 + p2 + f2 + p3|) by {
      OccursInMiddle(p1 + f1 + p2 + f2 + p3, f3, p4);
    }
  }

  /**
   * The message segment of the HTML body contains no newline, and has exactly three more
   * characters per newline of the message.
   */
  lemma HtmlMessageSegment(form: ContactFormData)
    ensures var before := HtmlPart1 + form.name + HtmlPart2 + form.email + HtmlPart3 + form.subject + HtmlPart4;
      var segment := HtmlBody(form)[|before|..|HtmlBody(form)| - |HtmlPart5|];
      && segment == ReplaceNewlines(form.message)
      && '\n' !in segment
      && |segment| == |form.message| + 3 * CountNewlines(form.message)
  {
    ReplaceNewlinesLength(form.message);
  }

  /**
   * The action never throws: a delivered message answers success, any exception on the
   * way (creating the transport, sending) answers the fixed failure.
   */
  function ResultOf(outcome: TransportOutcome): (r: SendResult)
    ensures r.success <==> outcome == Delivered
    ensures r.message == if r.success then SuccessMessage else FailureMessage
  {
    match outcome
    case Delivered => SendResult(true, SuccessMessage)
    case Threw => SendResult(false, FailureMessage)
  }

  /**
   * The whole action for one environment: a message whose recipient is unset or empty has no
   * recipients, and the transport refuses it (nodemailer answers "No recipients defined"),
   * which the action reports as a failure.
   */
  function Send(env: Env, transport: TransportOutcome): (r: SendResult)
    ensures !Truthy(Recipient(env)) ==> !r.success && r.message == FailureMessage
    ensures r.success <==> Truthy(Recipient(env)) && transport == Delivered
  {
    ResultOf(if !Truthy(Recipient(env)) then Threw else transport)
  }
}
