/**
 * The contact form (client/src/components/Contact.jsx): the form fields, the
 * program selector and the submit status (loading, success, error).
 */
module ContactForm {
  import opened Wrappers
  import opened JsText

  /** The `name` attribute of an input, which `handleChange` uses as the key to update. */
  datatype InputName = NameInput | EmailInput | PhoneInput | ProgramInput | MessageInput

  datatype FormData = FormData(name: string, email: string, phone: string, program: string, message: string)

  datatype Status = Status(loading: bool, success: bool, error: Option<string>)

  /** The programs the selector offers. */
  const Programs := ["Bodybuilding", "Weight Loss", "Strength"]
  const EmptyForm := FormData("", "", "", "Bodybuilding", "")
  const Idle := Status(false, false, None)
  const Sending := Status(true, false, None)
  const Sent := Status(false, true, None)
  const InvalidDataSent := "Invalid Data Sent"

  /** The value of one field. */
  function Get(form: FormData, input: InputName): string {
    match input
    case NameInput => form.name
    case EmailInput => form.email
    case PhoneInput => form.phone
    case ProgramInput => form.program
    case MessageInput => form.message
  }

  /** `{ ...prev, [name]: value }`: that field takes the value, every other field keeps its own. */
  function Set(form: FormData, input: InputName, value: string): (r: FormData)
    ensures Get(r, input) == value
    ensures forall other :: other != input ==> Get(r, other) == Get(form, other)
  {
    match input
    case NameInput => form.(name := value)
    case EmailInput => form.(email := value)
    case PhoneInput => form.(phone := value)
    case ProgramInput => form.(program := value)
    case MessageInput => form.(message := value)
  }

  /** How the `POST /api/leads` request of `handleSubmit` ended. */
  datatype SubmitReply =
    | SubmitThrown(message: string)             // the request or `res.json()` threw, with this message
    | SubmitAnswered(ok: bool, error: Field)    // `res.ok` and the body's `error` property

  /** The reply is a success: an answer with `res.ok`. */
  predicate Succeeded(reply: SubmitReply) {
    reply.SubmitAnswered? && reply.ok
  }

  /** The message of the error caught for a failed submission: the server's `error`, `"Invalid Data Sent"`, or the thrown message. */
  function FailureMessage(reply: SubmitReply): (m: string)
    requires !Succeeded(reply)
    ensures reply.SubmitThrown? ==> m == reply.message
    ensures reply.SubmitAnswered? && Truthy(reply.error) ==> m == reply.error.value
    ensures reply.SubmitAnswered? && !Truthy(reply.error) ==> m == InvalidDataSent
  {
    match reply
    case SubmitThrown(message) => message
    case SubmitAnswered(_, error) => OrElse(error, InvalidDataSent)
  }

  class Contact {
    var formData: FormData
    var status: Status

    constructor ()
      ensures formData == EmptyForm && status == Idle
    {
      formData, status := EmptyForm, Idle;
    }

    /** `handleChange`: updates the named field only. */
    method HandleChange(input: InputName, value: string)
      modifies this`formData
      ensures formData == Set(old(formData), input, value)
    {
      formData := Set(formData, input, value);
    }

    /** A program button: sets `program` only. The three buttons are its only callers. */
    method SelectProgram(program: string)
      requires program in Programs
      modifies this`formData
      ensures formData == Set(old(formData), ProgramInput, program)
    {
      formData := Set(formData, ProgramInput, program);
    }

    /**
     * The synchronous start of `handleSubmit`: while a submission is loading
     * it does nothing and sends nothing; otherwise it marks the status as
     * loading and sends the current form.
     */
    method StartSubmit() returns (sent: Option<FormData>)
      modifies this`status
      ensures old(status).loading ==> sent == None && status == old(status)
      ensures !old(status).loading ==> sent == Some(formData) && status == Sending
    {
      if status.loading {
        return None;
      }
      status := Sending;
      sent := Some(formData);
    }

    /**
     * The rest of `handleSubmit`, once the request started by StartSubmit
     * ends: success clears the form back to its initial values; failure
     * records the message and keeps what the visitor typed.
     */
    method FinishSubmit(reply: SubmitReply)
      requires status.loading
      modifies this`status, this`formData
      ensures Succeeded(reply) ==> status == Sent && formData == EmptyForm
      ensures !Succeeded(reply) ==>
        status == Status(false, false, Some(FailureMessage(reply))) && formData == old(formData)
    {
      if Succeeded(reply) {
        status := Sent;
        formData := EmptyForm;
      } else {
        status := Status(false, false, Some(FailureMessage(reply)));
      }
    }
  }
}
