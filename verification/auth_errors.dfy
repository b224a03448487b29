/**
 * The two tables that turn an authentication error code into the message shown to the
 * user: the shared one used by the sign-up form, and the login page's own.
 */
module AuthErrors {
  const Generic: string := "Something went wrong. Please try again."

  /** The codes the shared table knows, with their messages. */
  const Messages: map<string, string> := map[
    "auth/invalid-credential" := "Incorrect email or password.",
    "auth/user-disabled" := "Your account has been disabled.",
    "auth/email-already-in-use" := "An account with this email already exists.",
    "auth/invalid-email" := "Please enter a valid email address.",
    "auth/weak-password" := "Password must be at least 6 characters long.",
    "auth/too-many-requests" := "Too many attempts. Please wait a bit and try again.",
    "auth/network-request-failed" := "Network error. Check your connection and try again."]

  /** `getErrorMessage`: the code's message, or the generic one for any other code. */
  function GetErrorMessage(code: string): (r: string)
    ensures code in Messages ==> r == Messages[code]
    ensures r == Generic <==> code !in Messages
  {
    if code in Messages then Messages[code] else Generic
  }

  /** Different known codes give different messages, so the message tells the code. */
  lemma MessagesDistinct(a: string, b: string)
    requires a in Messages && b in Messages && a != b
    ensures GetErrorMessage(a) != GetErrorMessage(b)
  {
  }

  /** The codes with fixed messages named by the sign-up form. */
  lemma KnownCodes()
    ensures GetErrorMessage("auth/invalid-credential") == "Incorrect email or password."
    ensures GetErrorMessage("auth/invalid-email") == "Please enter a valid email address."
    ensures GetErrorMessage("auth/weak-password") == "Password must be at least 6 characters long."
    ensures GetErrorMessage("") == Generic
  {
  }
}

module LoginPage {
  import AuthErrors

  /** The codes the login page's table knows, with their messages. */
  const Messages: map<string, string> := map[
    "auth/invalid-credential" := "Incorrect email or password.",
    "auth/invalid-email" := "No account found with this email.",
    "auth/invalid-password" := "Incorrect password.",
    "auth/user-disabled" := "Your account has been disabled."]

  /** `getAuthErrorMessage`: the code's message, or the generic one for any other code. */
  function GetAuthErrorMessage(code: string): (r: string)
    ensures code in Messages ==> r == Messages[code]
    ensures r == AuthErrors.Generic <==> code !in Messages
  {
    if code in Messages then Messages[code] else AuthErrors.Generic
  }

  /**
   * Where the two tables agree and differ: the same message for a wrong credential and a
   * disabled account, different ones for an invalid email, and only the shared table
   * knows a weak password.
   */
  lemma TablesCompared()
    ensures GetAuthErrorMessage("auth/invalid-credential") == AuthErrors.GetErrorMessage("auth/invalid-credential")
    ensures GetAuthErrorMessage("auth/user-disabled") == AuthErrors.GetErrorMessage("auth/user-disabled")
    ensures GetAuthErrorMessage("auth/invalid-email") != AuthErrors.GetErrorMessage("auth/invalid-email")
    ensures GetAuthErrorMessage("auth/weak-password") == AuthErrors.Generic != AuthErrors.GetErrorMessage("auth/weak-password")
  {
  }

  /** The codes on which the two tables agree: the ones neither knows and the two shared ones. */
  lemma TablesAgree(code: string)
    ensures GetAuthErrorMessage(code) == AuthErrors.GetErrorMessage(code) <==>
      code in {"auth/invalid-credential", "auth/user-disabled"}
      || (code !in Messages && code !in AuthErrors.Messages)
  {
  }
}
