/**
 * `LoginPage`: builds the sign-in form, and on submit either refuses an
 * invalid form or signs in and reports the result.
 */
module Login {
  import opened Wrappers
  import opened Domain
  import opened Auth
  import opened Forms

  const LoginSucceeded: Toast := Toast("Login exitoso", "success")
  const LoginFallback: string := "Error al iniciar sesión"

  class LoginPage {
    /** `loginForm`: unset until `ngOnInit` builds it. */
    var loginForm: Option<FormValues>
    const auth: AuthService

    constructor (auth: AuthService)
      ensures this.auth == auth && loginForm == None
    {
      this.auth := auth;
      loginForm := None;
    }

    /** `ngOnInit`: both controls start empty. */
    method NgOnInit()
      modifies this
      ensures loginForm == Some(InitialForm)
    {
      loginForm := Some(InitialForm);
    }

    /** `getErrorMessage`: empty exactly when the control reports no error, and always empty for a control the form does not have. */
    function GetErrorMessage(controlName: string, isEmail: string -> bool): (msg: string)
      reads this
      requires loginForm.Some?
      ensures msg == "" <==> FieldErrors(loginForm.value, controlName, isEmail).None?
      ensures controlName != "email" && controlName != "password" ==> msg == ""
    {
      Forms.GetErrorMessage(loginForm.value, controlName, isEmail)
    }

    /**
     * `onLogin`: an invalid form is refused without contacting the provider;
     * otherwise a sign-in stores the session and goes home, and a rejection
     * shows the message mapped from the provider's code; that message is never
     * empty, so the fallback text is not reached.
     */
    method OnLogin(isEmail: string -> bool, outcome: AuthOutcome) returns (toast: Toast, navigateHome: bool)
      requires loginForm.Some?
      modifies auth
      ensures FormInvalid(loginForm.value, isEmail) ==>
                toast == InvalidFormToast && !navigateHome && auth.localStorage == old(auth.localStorage)
      ensures !FormInvalid(loginForm.value, isEmail) && outcome.SignedIn? ==>
                toast == LoginSucceeded && navigateHome
                && auth.localStorage == old(auth.localStorage)[SessionKey := outcome.user]
      ensures !FormInvalid(loginForm.value, isEmail) && outcome.Rejected? ==>
                toast == Toast(FirebaseErrorMessage(outcome.code), "danger") && !navigateHome
                && auth.localStorage == old(auth.localStorage)
    {
      if FormInvalid(loginForm.value, isEmail) {
        return InvalidFormToast, false;
      }
      var form := loginForm.value;
      var r := auth.Login(form.email, form.password, outcome);
      if r.Success? {
        return LoginSucceeded, true;
      }
      return FailureToast(r.error, LoginFallback), false;
    }
  }
}
