/**
 * `AuthService`: signing in, registering and signing out, the session entry
 * `'usuario'` it keeps in the browser's local storage, and the mapping from an
 * authentication error code to the message shown to the user.
 */
module Auth {
  import opened Wrappers
  import opened Domain

  /** The local-storage key of the session entry. */
  const SessionKey: string := "usuario"

  /** The stored entry `{ uid, email }`; the provider may report no email. */
  datatype SessionUser = SessionUser(uid: string, email: Option<string>)

  /** What the authentication provider answers: a signed-in user, or an error with its code. */
  datatype AuthOutcome = SignedIn(user: SessionUser) | Rejected(code: string)

  /** The seven error codes with a message of their own. */
  const KnownCodes: seq<string> := [
    "auth/invalid-email", "auth/user-disabled", "auth/user-not-found", "auth/wrong-password",
    "auth/email-already-in-use", "auth/weak-password", "auth/too-many-requests"]

  const DefaultAuthMessage: string := "Error de autenticación, intenta nuevamente"

  /** `getFirebaseErrorMessage`: the message for an error code. */
  function FirebaseErrorMessage(code: string): (m: string)
    ensures m != ""
    ensures m == DefaultAuthMessage <==> code !in KnownCodes
  {
    match code
    case "auth/invalid-email" => "El correo electrónico no es válido"
    case "auth/user-disabled" => "La cuenta ha sido deshabilitada"
    case "auth/user-not-found" => "No existe un usuario con ese correo"
    case "auth/wrong-password" => "La contraseña es incorrecta"
    case "auth/email-already-in-use" => "El correo ya está registrado"
    case "auth/weak-password" => "La contraseña es demasiado débil"
    case "auth/too-many-requests" => "Demasiados intentos fallidos, intenta más tarde"
    case _ => DefaultAuthMessage
  }

  /** Each listed code has its own message, so the message tells which listed code caused it. */
  lemma FirebaseErrorMessageInjective(a: string, b: string)
    requires a in KnownCodes && b in KnownCodes
    requires FirebaseErrorMessage(a) == FirebaseErrorMessage(b)
    ensures a == b
  {
    var i :| 0 <= i < |KnownCodes| && KnownCodes[i] == a;
    var j :| 0 <= j < |KnownCodes| && KnownCodes[j] == b;
    MessageOfKnownCode(i);
    MessageOfKnownCode(j);
    KnownMessageLengthsDistinct(i, j);
  }

  /** The lengths of the listed codes' messages: seven different numbers. */
  const KnownMessageLengths: seq<nat> := [34, 31, 35, 27, 28, 32, 47]

  lemma KnownMessageLengthsDistinct(i: nat, j: nat)
    requires i < |KnownMessageLengths| && j < |KnownMessageLengths|
    requires KnownMessageLengths[i] == KnownMessageLengths[j]
    ensures i == j
  {
  }

  lemma MessageOfKnownCode(i: nat)
    requires i < |KnownCodes|
    ensures |FirebaseErrorMessage(KnownCodes[i])| == KnownMessageLengths[i]
  {
    if i == 0 {
      assert KnownCodes[i] == "auth/invalid-email";
      assert FirebaseErrorMessage("auth/invalid-email") == "El correo electrónico no es válido";
    } else if i == 1 {
      assert KnownCodes[i] == "auth/user-disabled";
      assert FirebaseErrorMessage("auth/user-disabled") == "La cuenta ha sido deshabilitada";
    } else if i == 2 {
      assert KnownCodes[i] == "auth/user-not-found";
      assert FirebaseErrorMessage("auth/user-not-found") == "No existe un usuario con ese correo";
    } else if i == 3 {
      assert KnownCodes[i] == "auth/wrong-password";
      assert FirebaseErrorMessage("auth/wrong-password") == "La contraseña es incorrecta";
    } else if i == 4 {
      assert KnownCodes[i] == "auth/email-already-in-use";
      assert FirebaseErrorMessage("auth/email-already-in-use") == "El correo ya está registrado";
    } else if i == 5 {
      assert KnownCodes[i] == "auth/weak-password";
      assert FirebaseErrorMessage("auth/weak-password") == "La contraseña es demasiado débil";
    } else {
      assert KnownCodes[i] == "auth/too-many-requests";
      assert FirebaseErrorMessage("auth/too-many-requests") == "Demasiados intentos fallidos, intenta más tarde";
    }
  }

  /** The error `login` and `register` throw for a rejected attempt. */
  function AuthError(code: string): (e: Thrown)
    ensures e.ErrorObject? && e.message == FirebaseErrorMessage(code)
  {
    ErrorObject(FirebaseErrorMessage(code))
  }

  class AuthService {
    /** The browser's local storage, entries already parsed. */
    var localStorage: map<string, SessionUser>

    constructor (localStorage: map<string, SessionUser>)
      ensures this.localStorage == localStorage
    {
      this.localStorage := localStorage;
    }

    /** `getCurrentUser`: the stored entry, or `null`. */
    function GetCurrentUser(): (u: Option<SessionUser>)
      reads this
      ensures u.Some? <==> SessionKey in localStorage
      ensures u.Some? ==> u.value == localStorage[SessionKey]
    {
      if SessionKey in localStorage then Some(localStorage[SessionKey]) else None
    }

    /** `isLoggedIn`: whether `getCurrentUser` is non-null. */
    function IsLoggedIn(): (b: bool)
      reads this
      ensures b <==> GetCurrentUser().Some?
    {
      SessionKey in localStorage
    }

    /** `login`: on success the session entry holds the user; on rejection it is untouched and the mapped message is thrown. */
    method Login(email: string, password: string, outcome: AuthOutcome) returns (r: Result<SessionUser, Thrown>)
      modifies this
      ensures outcome.SignedIn? ==>
                r == Success(outcome.user)
                && localStorage == old(localStorage)[SessionKey := outcome.user]
                && GetCurrentUser() == Some(outcome.user)
      ensures outcome.Rejected? ==>
                r == Failure(AuthError(outcome.code)) && localStorage == old(localStorage)
    {
      r := SignIn(outcome);
    }

    /** `register`: the same session writes and errors as `login`. */
    method Register(email: string, password: string, outcome: AuthOutcome) returns (r: Result<SessionUser, Thrown>)
      modifies this
      ensures outcome.SignedIn? ==>
                r == Success(outcome.user)
                && localStorage == old(localStorage)[SessionKey := outcome.user]
                && GetCurrentUser() == Some(outcome.user)
      ensures outcome.Rejected? ==>
                r == Failure(AuthError(outcome.code)) && localStorage == old(localStorage)
    {
      r := SignIn(outcome);
    }

    /** The `try`/`catch` that `login` and `register` share once the provider has answered. */
    method SignIn(outcome: AuthOutcome) returns (r: Result<SessionUser, Thrown>)
      modifies this
      ensures outcome.SignedIn? ==>
                r == Success(outcome.user) && localStorage == old(localStorage)[SessionKey := outcome.user]
      ensures outcome.Rejected? ==>
                r == Failure(AuthError(outcome.code)) && localStorage == old(localStorage)
    {
      match outcome
      case SignedIn(user) =>
        localStorage := localStorage[SessionKey := user];
        return Success(user);
      case Rejected(code) =>
        return Failure(AuthError(code));
    }

    /** `logout`: the entry is removed only once signing out has succeeded. */
    method Logout(fault: Option<Thrown>) returns (r: Result<(), Thrown>)
      modifies this
      ensures fault.Some? ==> r == Failure(fault.value) && localStorage == old(localStorage)
      ensures fault.None? ==>
                r == Success(()) && localStorage == old(localStorage) - {SessionKey}
                && !IsLoggedIn()
    {
      if fault.Some? {
        return Failure(fault.value);
      }
      localStorage := localStorage - {SessionKey};
      return Success(());
    }
  }
}
