/**
 * The sign-up form. A password that differs from its confirmation is
 * refused on the spot; otherwise `loading` is set, the six fields are
 * posted as entered, and once the server has answered the user is sent to
 * "/" or shown the error, `loading` being cleared either way.
 */
module Registration {
  import opened Js
  import opened Paths

  /** The body of `POST /register`, field for field. */
  datatype RegisterRequest = RegisterRequest(
    name: string, password: string, email: string, phone: string,
    roleId: string, dateInscription: string)

  /** A 2xx answer, or a failure with `err.response?.data?.message`. */
  datatype RegisterReply = Registered | Refused(message: JsValue)

  const Mismatch := "❌ Passwords do not match"
  const Success := "✅ Registration successful"

  /** The alert shown on failure: the server's message when truthy, else the default. */
  function FailureText(message: JsValue): (t: string)
    ensures Truthy(message) ==> t == ToStr(message)
    ensures !Truthy(message) ==> t == "❌ Registration Failed"
  {
    ToStr(OrElse(message, Str("❌ Registration Failed")))
  }

  class RegistrationForm {
    var name: string
    var password: string
    var password1: string
    var email: string
    var phone: string
    var roleId: string
    var dateInscription: string
    var loading: bool
    var alerts: seq<string>
    var navigatedTo: Option<Path>

    constructor ()
      ensures name == "" && password == "" && password1 == "" && email == "" && phone == ""
      ensures roleId == "" && dateInscription == ""
      ensures !loading && alerts == [] && navigatedTo == None
    {
      name, password, password1, email, phone := "", "", "", "", "";
      roleId, dateInscription := "", "";
      loading, alerts, navigatedTo := false, [], None;
    }

    /**
     * `handleSubmit` up to the request: a mismatch alerts and returns
     * without a request and without touching `loading`.
     */
    method BeginSubmit() returns (req: Option<RegisterRequest>)
      modifies this
      ensures password == old(password) && password1 == old(password1) && navigatedTo == old(navigatedTo)
      ensures old(password) != old(password1) ==>
                req == None && loading == old(loading) && alerts == old(alerts) + [Mismatch]
      ensures old(password) == old(password1) ==>
                && req == Some(RegisterRequest(name, password, email, phone, roleId, dateInscription))
                && loading && alerts == old(alerts)
      ensures name == old(name) && email == old(email) && phone == old(phone)
      ensures roleId == old(roleId) && dateInscription == old(dateInscription)
    {
      if password != password1 {
        alerts := alerts + [Mismatch];
        req := None;
        return;
      }
      loading := true;
      req := Some(RegisterRequest(name, password, email, phone, roleId, dateInscription));
    }

    /** The `.then`, `.catch` and `.finally` of the request. */
    method CompleteSubmit(reply: RegisterReply)
      modifies this
      ensures !loading
      ensures reply.Registered? ==> alerts == old(alerts) + [Success] && navigatedTo == Some(Root)
      ensures reply.Refused? ==> alerts == old(alerts) + [FailureText(reply.message)] && navigatedTo == old(navigatedTo)
      ensures name == old(name) && password == old(password) && password1 == old(password1)
      ensures email == old(email) && phone == old(phone)
      ensures roleId == old(roleId) && dateInscription == old(dateInscription)
    {
      if reply.Registered? {
        alerts := alerts + [Success];
        navigatedTo := Some(Root);
      } else {
        alerts := alerts + [FailureText(reply.message)];
      }
      loading := false;
    }
  }
}
