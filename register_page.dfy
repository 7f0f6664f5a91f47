/**
 * `RegisterPage`: builds the registration form, and on submit either refuses an
 * invalid form or registers the account and reports the result.
 */
module Register {
  import opened Wrappers
  import opened Domain
  import opened Auth
  import opened Forms

  const RegisterSucceeded: Toast := Toast("Registro exitoso", "success")
  const RegisterFallback: string := "Error al registrarse"

  class RegisterPage {
    /** `registerForm`: unset until `ngOnInit` builds it. */
    var registerForm: Option<FormValues>
    const auth: AuthService

    constructor (auth: AuthService)
      ensures this.auth == auth && registerForm == None
    {
      this.auth := auth;
      registerForm := None;
    }

    /** `ngOnInit`: both controls start empty. */
    method NgOnInit()
      modifies this
      ensures registerForm == Some(InitialForm)
    {
      registerForm := Some(InitialForm);
    }

    /** `getErrorMessage`: empty exactly when the control reports no error, and always empty for a control the form does not have. */
    function GetErrorMessage(controlName: string, isEmail: string -> bool): (msg: string)
      reads this
      requires registerForm.Some?
      ensures msg == "" <==> FieldErrors(registerForm.value, controlName, isEmail).None?
      ensures controlName != "email" && controlName != "password" ==> msg == ""
    {
      Forms.GetErrorMessage(registerForm.value, controlName, isEmail)
    }

    /**
     * `onRegister`: an invalid form is refused without contacting the provider;
     * otherwise a registration stores the session and goes home, and a rejection
     * shows the message mapped from the provider's code; that message is never
     * empty, so the fallback text is not reached.
     */
    method OnRegister(isEmail: string -> bool, outcome: AuthOutcome) returns (toast: Toast, navigateHome: bool)
      requires registerForm.Some?
      modifies auth
      ensures FormInvalid(registerForm.value, isEmail) ==>
                toast == InvalidFormToast && !navigateHome && auth.localStorage == old(auth.localStorage)
      ensures !FormInvalid(registerForm.value, isEmail) && outcome.SignedIn? ==>
                toast == RegisterSucceeded && navigateHome
                && auth.localStorage == old(auth.localStorage)[SessionKey := outcome.user]
      ensures !FormInvalid(registerForm.value, isEmail) && outcome.Rejected? ==>
                toast == Toast(FirebaseErrorMessage(outcome.code), "danger") && !navigateHome
                && auth.localStorage == old(auth.localStorage)
    {
      if FormInvalid(registerForm.value, isEmail) {
        return InvalidFormToast, false;
      }
      var form := registerForm.value;
      var r := auth.Register(form.email, form.password, outcome);
      if r.Success? {
        return RegisterSucceeded, true;
      }
      return FailureToast(r.error, RegisterFallback), false;
    }
  }
}
