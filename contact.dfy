/**
 * The contact section's form (components/contact.tsx:34-113): four text fields, a
 * submitting flag and the status shown under the form. Submitting calls the mail action;
 * its awaited answer (or its exception) is an input of the second half of the submit.
 */
module Contact {
  import opened Wrappers
  import SendEmail

  type ContactFormData = SendEmail.ContactFormData

  /** The `name` attribute of the input that changed. */
  datatype Field = Name | Email | Subject | Message

  /** The status shown under the form. */
  datatype FormStatus = FormStatus(success: bool, message: string)

  /** What awaiting the mail action produced: its answer, or an exception. */
  datatype SubmitOutcome = Returned(result: SendEmail.SendResult) | Threw

  const EmptyForm: ContactFormData := SendEmail.ContactFormData("", "", "", "")

  const UnexpectedErrorMessage: string := "An unexpected error occurred. Please try again later."

  function Get(form: ContactFormData, field: Field): string
  {
    match field
    case Name => form.name
    case Email => form.email
    case Subject => form.subject
    case Message => form.message
  }

  /** `{ ...prev, [name]: value }`: only the named field takes the new value. */
  function WithField(form: ContactFormData, field: Field, value: string): (r: ContactFormData)
    ensures Get(r, field) == value
    ensures forall other :: other != field ==> Get(r, other) == Get(form, other)
  {
    match field
    case Name => form.(name := value)
    case Email => form.(email := value)
    case Subject => form.(subject := value)
    case Message => form.(message := value)
  }

  /** The status after the send: the action's own answer, or the fixed unexpected-error failure. */
  function StatusAfter(outcome: SubmitOutcome): (s: FormStatus)
    ensures outcome.Returned? ==> s.success == outcome.result.success && s.message == outcome.result.message
    ensures outcome.Threw? ==> !s.success && s.message == UnexpectedErrorMessage
  {
    match outcome
    case Returned(result) => FormStatus(result.success, result.message)
    case Threw => FormStatus(false, UnexpectedErrorMessage)
  }

  /** The fields after the send: cleared on a successful answer, kept otherwise. */
  function FormAfter(form: ContactFormData, outcome: SubmitOutcome): (r: ContactFormData)
    ensures outcome.Returned? && outcome.result.success ==> r == EmptyForm
    ensures !(outcome.Returned? && outcome.result.success) ==> r == form
  {
    if outcome.Returned? && outcome.result.success then EmptyForm else form
  }

  /**
   * End to end with the mail action: the form is cleared exactly when the transport
   * delivered, and the status then reads the action's success message; otherwise the
   * fields are kept and the status is a failure.
   */
  lemma SubmitThroughAction(form: ContactFormData, transport: SendEmail.TransportOutcome)
    ensures var outcome := Returned(SendEmail.ResultOf(transport));
      && (FormAfter(form, outcome) == EmptyForm || FormAfter(form, outcome) == form)
      && (StatusAfter(outcome).success <==> transport == SendEmail.Delivered)
      && (transport == SendEmail.Delivered ==>
            FormAfter(form, outcome) == EmptyForm && StatusAfter(outcome).message == SendEmail.SuccessMessage)
      && (transport == SendEmail.Threw ==>
            FormAfter(form, outcome) == form && StatusAfter(outcome).message == SendEmail.FailureMessage)
  {
  }

  /** The component's state cells. */
  class ContactForm {
    var formState: ContactFormData
    var isSubmitting: bool
    var formStatus: Option<FormStatus>

    constructor ()
      ensures formState == EmptyForm && !isSubmitting && formStatus == None
    {
      formState := EmptyForm;
      isSubmitting := false;
      formStatus := None;
    }

    /** The submit button is `disabled={isSubmitting}`. */
    predicate SubmitEnabled()
      reads this
    {
      !isSubmitting
    }

    /** `handleChange`: the input named `field` now holds `value`. */
    method HandleChange(field: Field, value: string)
      modifies this
      ensures formState == WithField(old(formState), field, value)
      ensures isSubmitting == old(isSubmitting) && formStatus == old(formStatus)
    {
      formState := WithField(formState, field, value);
    }

    /**
     * `handleSubmit` up to the `await`: the button is disabled, the status cleared, and the
     * current fields are what is sent.
     */
    method BeginSubmit() returns (sent: ContactFormData)
      modifies this
      ensures sent == old(formState) && formState == old(formState)
      ensures isSubmitting && !SubmitEnabled() && formStatus == None
    {
      isSubmitting := true;
      formStatus := None;
      sent := formState;
    }

    /** `handleSubmit` after the `await`: the try, catch and finally blocks. */
    method FinishSubmit(outcome: SubmitOutcome)
      modifies this
      ensures formStatus == Some(StatusAfter(outcome))
      ensures formState == FormAfter(old(formState), outcome)
      ensures !isSubmitting && SubmitEnabled()
    {
      match outcome {
        case Returned(result) =>
          formStatus := Some(FormStatus(result.success, result.message));
          if result.success {
            formState := EmptyForm;
          }
        case Threw =>
          formStatus := Some(FormStatus(false, UnexpectedErrorMessage));
      }
      isSubmitting := false;
    }
  }
}
