/** Error kinds and result wrappers shared by every handler of the backend.
    A handler never throws: it returns `Ok(value)` or `Err(error)`, and the
    store it hands back is the store after whatever writes committed. */
module Results {

  datatype Option<+T> = None | Some(value: T)

  /** Why a request was refused. The source answers with free-text messages;
      each distinct refusal becomes one constructor here. */
  datatype Reason =
    | MissingParameter      // an empty phone, token, code or keyword
    | UsernameTooLong       // root username over 12 bytes
    | PhoneInUse            // phone already registered
    | PhoneNotRegistered    // phone must be registered for this purpose
    | CodeMismatch          // verification code wrong, expired or absent
    | MalformedEmail        // address does not split into local@domain
    | DomainNotAllowed      // domain not on the whitelist
    | AliasNotAllowed       // local part holds '+' or '.'
    | EmailInUse            // address already registered
    | BadFormat             // request fails the binding validator
    | AlreadySubscribed     // an active subscription for (caller, topic) exists
    | NotActive             // the subscription is already cancelled
    | AlreadySetUp          // the setup wizard has already completed

  datatype Error =
    | NotFound
    | Forbidden
    | Invalid(reason: Reason)
    | StoreFailure          // a read or write rejected by the record store

  datatype Result<+T> = Ok(value: T) | Err(error: Error) {
    predicate IsFailure() { Err? }
  }

  /** What a handler hands back: the store after its committed writes, and
      the answer sent to the client. */
  datatype Reply<+S, +T> = Reply(state: S, result: Result<T>)
}
