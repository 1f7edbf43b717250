/**
 * The sign-in form. Submitting sets `loading`, posts the name and
 * password, and once the server has answered either stores the session and
 * goes to the role's landing page or shows the error; `loading` is cleared
 * in both cases.
 */
module Login {
  import opened Js
  import opened Session
  import opened Paths

  /** The body of `POST /login`. */
  datatype LoginRequest = LoginRequest(name: string, motDePasse: string)

  /**
   * How the request ended: a 2xx answer carrying `user.id` and
   * `user.role_id`, or a failure with `err.response?.data?.message`
   * (Undefined when the answer had none, or there was no answer).
   */
  datatype LoginReply = Accepted(id: JsValue, roleId: JsValue) | Failed(message: JsValue)

  /** Where a signed-in user goes: 6 to /homeclient, 8 to /homeexpert, any other value to /home. */
  function LandingFor(role: JsNumber): (p: Path)
    ensures p == HomeClientPath <==> role == Num(6)
    ensures p == HomeExpertPath <==> role == Num(8)
    ensures p in {HomeClientPath, HomeExpertPath, HomePath}
  {
    if NumberStrictEquals(role, Num(6)) then HomeClientPath
    else if NumberStrictEquals(role, Num(8)) then HomeExpertPath
    else HomePath
  }

  /** The alert shown on failure: the server's message when truthy, else the default. */
  function FailureText(message: JsValue): (t: string)
    ensures Truthy(message) ==> t == ToStr(message)
    ensures !Truthy(message) ==> t == "❌ Login failed"
  {
    ToStr(OrElse(message, Str("❌ Login failed")))
  }

  class LoginForm {
    var name: string
    var motDePasse: string
    var loading: bool
    /** The alerts shown so far, oldest first. */
    var alerts: seq<string>
    /** The last `navigate` target, if any. */
    var navigatedTo: Option<Path>

    constructor ()
      ensures name == "" && motDePasse == "" && !loading && alerts == [] && navigatedTo == None
    {
      name := "";
      motDePasse := "";
      loading := false;
      alerts := [];
      navigatedTo := None;
    }

    /** The part of `handleSubmit` before the `await`: set `loading` and send the form. */
    method BeginSubmit() returns (req: LoginRequest)
      modifies this
      ensures req == LoginRequest(old(name), old(motDePasse))
      ensures loading
      ensures name == old(name) && motDePasse == old(motDePasse)
      ensures alerts == old(alerts) && navigatedTo == old(navigatedTo)
    {
      loading := true;
      req := LoginRequest(name, motDePasse);
    }

    /**
     * The part after the `await`. On success both entries are written, the
     * role is read back from storage with `Number`, and the landing page is
     * chosen from it; on failure storage is left alone. `loading` ends false.
     */
    method CompleteSubmit(reply: LoginReply, store: Storage)
      modifies this, store
      ensures !loading
      ensures name == old(name) && motDePasse == old(motDePasse)
      ensures reply.Accepted? ==>
                && store.session == Some(ToStr(reply.roleId)) && store.userId == Some(ToStr(reply.id))
                && navigatedTo == Some(LandingFor(ToNumber(Str(store.session.value))))
                && alerts == old(alerts) + ["✅ Connexion réussie"]
      ensures reply.Failed? ==>
                && store.session == old(store.session) && store.userId == old(store.userId)
                && navigatedTo == old(navigatedTo)
                && alerts == old(alerts) + [FailureText(reply.message)]
    {
      if reply.Accepted? {
        SignIn(reply.id, reply.roleId, store);
      } else {
        alerts := alerts + [FailureText(reply.message)];
      }
      loading := false;
    }

    /** The success path: store both entries, then land by the role read back. */
    method SignIn(id: JsValue, roleId: JsValue, store: Storage)
      modifies this, store
      ensures store.session == Some(ToStr(roleId)) && store.userId == Some(ToStr(id))
      ensures navigatedTo == Some(LandingFor(ToNumber(Str(store.session.value))))
      ensures alerts == old(alerts) + ["✅ Connexion réussie"]
      ensures name == old(name) && motDePasse == old(motDePasse) && loading == old(loading)
    {
      store.SetSession(roleId);
      store.SetUserId(id);
      Land(store);
    }

    /** Read the role back from storage with `Number`, announce the sign-in and go to the role's landing page. */
    method Land(store: Storage)
      requires store.session.Some?
      modifies this
      ensures navigatedTo == Some(LandingFor(ToNumber(Str(store.session.value))))
      ensures alerts == old(alerts) + ["✅ Connexion réussie"]
      ensures name == old(name) && motDePasse == old(motDePasse) && loading == old(loading)
    {
      var stored := store.GetSession();
      var role := ToNumber(Str(stored.value));
      alerts := alerts + ["✅ Connexion réussie"];
      navigatedTo := Some(LandingFor(role));
    }
  }

  /** A numeric role id sent by the server lands where its own value says. */
  lemma LandingOfNumericRole(n: int)
    ensures LandingFor(ParseNumber(ToStr(Number(Num(n))))) ==
              (if n == 6 then HomeClientPath else if n == 8 then HomeExpertPath else HomePath)
  {
    NumberOfIntToString(n);
    LandingOfParsed(ToStr(Number(Num(n))), n);
  }

  /** Any text that reads as the number n lands where n says. */
  lemma LandingOfParsed(s: string, n: int)
    requires ParseNumber(s) == Num(n)
    ensures LandingFor(ParseNumber(s)) ==
              (if n == 6 then HomeClientPath else if n == 8 then HomeExpertPath else HomePath)
  {
  }
}
