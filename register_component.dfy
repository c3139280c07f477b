/** The state of the registration page (app/register/page.jsx): the `form`
    object, the `formErrors` of the last submission and the status
    `message`, and the handlers that change them: choosing a logo, submitting,
    and reading the server's reply. Rendering, scrolling and the pincode
    lookup are not part of this model. */
module RegisterComponent {
  import opened Multipart
  import opened RegistrationPage
  import opened FormPayload

  const LogoTypeMessage: string := "❌ Only PNG or JPG files are allowed for logo."
  const FillRequiredMessage: string := "Please fill all required fields."
  const SubmittingMessage: string := "⏳ Submitting..."
  const RegisteredMessage: string := "✅ Registered successfully!"
  const UnexpectedMessage: string := "❌ Unexpected error occurred"
  const FailureMark: string := "❌ "
  const FailureFallback: string := "Registration failed"

  /** The MIME types the page lets through for a logo. */
  predicate AcceptedMime(mime: string) {
    mime == "image/png" || mime == "image/jpeg" || mime == "image/jpg"
  }

  /** `{ ...form, logo, logoPreview }` */
  function WithLogo(f: FormState, logo: Option<File>, preview: Option<string>): (g: FormState)
    ensures g.logo == logo && g.logoPreview == preview
  {
    f.(logo := logo, logoPreview := preview)
  }

  /** What the page learns from its request: the response's `ok` flag and
      the `error` field of its JSON body, or a failure to fetch or to parse
      the body. */
  datatype Reply = Reply(ok: bool, error: Option<string>) | Unreadable

  /** The message the page shows for a reply: success, the server's error
      after a cross (or "Registration failed" when it gave none or an empty
      one), or the generic failure. */
  function ReplyMessage(r: Reply): (m: string)
    ensures r.Unreadable? ==> m == UnexpectedMessage
    ensures r.Reply? && r.ok ==> m == RegisteredMessage
    ensures r.Reply? && !r.ok && r.error.Some? && r.error.value != "" ==> m == FailureMark + r.error.value
    ensures r.Reply? && !r.ok && (r.error.None? || r.error.value == "") ==> m == FailureMark + FailureFallback
  {
    match r
    case Unreadable => UnexpectedMessage
    case Reply(ok, error) =>
      if ok then RegisteredMessage
      else FailureMark + (if error.Some? && error.value != "" then error.value else FailureFallback)
  }

  /** The component `RegisterForm`. */
  class RegisterForm {
    var form: FormState
    var formErrors: ErrorObject
    var message: string

    constructor ()
      ensures form == InitialForm && formErrors == map[] && message == ""
    {
      form := InitialForm;
      formErrors := map[];
      message := "";
    }

    /** `handleChange` for the "logo" input. A file of another type clears
        the logo and its preview and says why; an accepted one is kept with
        the preview URL `objectUrl`. With no file, `createObjectURL` throws
        before the state is set, so nothing changes. */
    method ChooseLogo(file: Option<File>, objectUrl: string)
      modifies this
      ensures formErrors == old(formErrors)
      ensures file.None? ==> form == old(form) && message == old(message)
      ensures file.Some? && !AcceptedMime(file.value.mime) ==>
        form == WithLogo(old(form), None, None) && message == LogoTypeMessage
      ensures file.Some? && AcceptedMime(file.value.mime) ==>
        form == WithLogo(old(form), file, Some(objectUrl)) && message == old(message)
    {
      if file.None? {
        return;
      }
      if !AcceptedMime(file.value.mime) {
        message := LogoTypeMessage;
        form := WithLogo(form, None, None);
        return;
      }
      form := WithLogo(form, file, Some(objectUrl));
    }

    /** The upload handler of the logo picker. Unlike `handleChange`, a file
        of another type leaves the logo chosen before in place. */
    method UploadLogo(file: File, objectUrl: string)
      modifies this
      ensures formErrors == old(formErrors)
      ensures !AcceptedMime(file.mime) ==> form == old(form) && message == LogoTypeMessage
      ensures AcceptedMime(file.mime) ==>
        form == WithLogo(old(form), Some(file), Some(objectUrl)) && message == old(message)
    {
      if !AcceptedMime(file.mime) {
        message := LogoTypeMessage;
      } else {
        form := WithLogo(form, Some(file), Some(objectUrl));
      }
    }

    /** `handleSubmit` up to the request: validate, keep the errors, and
        either stop with a message or build the body to post. A body is
        produced exactly when `validate` reports nothing, that is, by
        `ClientErrorsEmptyIff`, exactly when the form satisfies every rule. */
    method Submit() returns (body: Option<seq<Entry>>)
      modifies this
      ensures form == old(form)
      ensures formErrors == ClientErrors(form)
      ensures body.Some? <==> formErrors == map[]
      ensures body.Some? ==> body.value == Payload(form) && message == SubmittingMessage
      ensures body.None? ==> message == FillRequiredMessage
    {
      var errors := Validate(form);
      formErrors := errors;
      if |errors| > 0 {
        message := FillRequiredMessage;
        return None;
      }
      message := SubmittingMessage;
      var entries := BuildPayload(form);
      body := Some(entries);
    }

    /** `handleSubmit` after the request: show the outcome. */
    method Respond(reply: Reply)
      modifies this
      ensures message == ReplyMessage(reply)
      ensures form == old(form) && formErrors == old(formErrors)
    {
      match reply {
        case Unreadable =>
          message := UnexpectedMessage;
        case Reply(ok, error) =>
          if ok {
            message := RegisteredMessage;
          } else if error.Some? && error.value != "" {
            message := FailureMark + error.value;
          } else {
            message := FailureMark + FailureFallback;
          }
      }
    }
  }

  /** The logo is never validated: choosing, replacing or clearing it
      changes no message of `validate`. */
  lemma LogoNeverValidated(f: FormState, logo: Option<File>, preview: Option<string>)
    ensures ClientErrors(WithLogo(f, logo, preview)) == ClientErrors(f)
    ensures ClientAccepts(WithLogo(f, logo, preview)) <==> ClientAccepts(f)
  {
    assert Outcome(WithLogo(f, logo, preview)) == Outcome(f);
  }

  /** Choosing a logo changes only the logo entry of the posted body. */
  lemma LogoOnlyChangesLogoEntry(f: FormState, logo: Option<File>, preview: Option<string>, k: FieldKey)
    requires k != CuisineTypes && k != LogoPreview
    ensures GetAll(Payload(WithLogo(f, logo, preview)), KeyName(k)) ==
      if k == Logo then [LogoPart(logo)] else GetAll(Payload(f), KeyName(k))
  {
    PayloadFields(f, k);
    PayloadFields(WithLogo(f, logo, preview), k);
  }
}
