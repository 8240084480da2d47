/** The contact-form body every message endpoint destructures. */
module ContactBody {
  import opened Wrappers
  import opened Text

  const FieldsRequired := "name, email and message are required"

  /** `{ name, email, message }`; absent keys are None. */
  datatype MessageBody = MessageBody(name: Option<string>, email: Option<string>, message: Option<string>)

  /** The `!name || !email || !message` check: all three present and non-empty. */
  predicate Complete(b: MessageBody) {
    Truthy(b.name) && Truthy(b.email) && Truthy(b.message)
  }
}
