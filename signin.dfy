/** The sign-in form (app/client/src/components/authComponents/SignIn.tsx): the ordered
    validation of the email and password and the loading/error/token state around the
    login call. */
module SignIn {
  import opened Wrappers
  import opened JsText
  import PyStr

  // ---------------------------------------------------------------------------
  // The email pattern /^[^\s@]+@[^\s@]+\.[^\s@]+$/
  // ---------------------------------------------------------------------------

  /** A character of the class `[^\s@]`. */
  predicate PlainChar(c: char) { !IsJsSpace(c) && c != '@' }

  /** A non-empty run of `[^\s@]`. */
  predicate PlainRun(t: string) { t != [] && forall k | 0 <= k < |t| :: PlainChar(t[k]) }

  /** The pattern as the regular expression reads it: `s` splits at an `@` (position `i`) and a
      later `.` (position `j`) into three non-empty runs of `[^\s@]`. */
  ghost predicate MatchesEmailPattern(s: string) {
    exists i: nat, j: nat | i < j < |s| ::
      s[i] == '@' && s[j] == '.' && PlainRun(s[..i]) && PlainRun(s[i + 1..j]) && PlainRun(s[j + 1..])
  }

  /** A hand-written recogniser: exactly one `@`, no whitespace, a non-empty local part, and a
      domain with a `.` that has text on both sides. */
  predicate IsValidEmail(s: string) {
    var at := PyStr.IndexOf(s, '@');
    at < |s| && PlainRun(s[..at]) && PlainRun(s[at + 1..]) && HasInnerDot(s[at + 1..])
  }

  /** `d` has a `.` that is neither its first nor its last character. */
  predicate HasInnerDot(d: string) {
    exists j | 0 < j < |d| - 1 :: d[j] == '.'
  }

  /** The recogniser accepts exactly the strings the regular expression matches. */
  lemma IsValidEmailMatchesPattern(s: string)
    ensures IsValidEmail(s) <==> MatchesEmailPattern(s)
  {
    if IsValidEmail(s) {
      ValidEmailMatches(s);
    }
    if MatchesEmailPattern(s) {
      var i: nat, j: nat :| i < j < |s| && s[i] == '@' && s[j] == '.'
        && PlainRun(s[..i]) && PlainRun(s[i + 1..j]) && PlainRun(s[j + 1..]);
      PatternIsValid(s, i, j);
    }
  }

  lemma ValidEmailMatches(s: string)
    requires IsValidEmail(s)
    ensures MatchesEmailPattern(s)
  {
    var at := PyStr.IndexOf(s, '@');
    var d := s[at + 1..];
    var j :| 0 < j < |d| - 1 && d[j] == '.';
    var jj := at + 1 + j;
    assert s[at + 1..jj] == d[..j] && s[jj + 1..] == d[j + 1..];
    assert PlainRun(d[..j]) by { assert forall k | 0 <= k < j :: d[..j][k] == d[k]; }
    assert PlainRun(d[j + 1..]) by {
      forall k | j + 1 <= k < |d|
        ensures PlainChar(d[k])
      {
      }
      var t := d[j + 1..];
      assert forall k | 0 <= k < |t| :: t[k] == d[j + 1 + k];
    }
    assert s[at] == '@' && s[jj] == '.';
  }

  lemma PatternIsValid(s: string, i: nat, j: nat)
    requires i < j < |s| && s[i] == '@' && s[j] == '.'
    requires PlainRun(s[..i]) && PlainRun(s[i + 1..j]) && PlainRun(s[j + 1..])
    ensures IsValidEmail(s)
  {
    assert forall k | 0 <= k < i :: s[k] == s[..i][k];
    var at := PyStr.IndexOf(s, '@');
    assert at == i;
    var d := s[at + 1..];
    forall k | 0 <= k < |d|
      ensures PlainChar(d[k])
    {
      if k < j - i - 1 {
        assert d[k] == s[i + 1..j][k];
      } else if k > j - i - 1 {
        assert d[k] == s[j + 1..][k - (j - i)];
      }
    }
    assert d[j - i - 1] == '.';
  }

  // ---------------------------------------------------------------------------
  // Validation
  // ---------------------------------------------------------------------------

  /** The checks of `handleSignIn`, each named after the message it sets. */
  datatype Check = EmailRequired | EmailInvalid | PasswordRequired | PasswordTooShort

  /** The message the form shows for a failed check. */
  function Message(c: Check): string {
    match c
    case EmailRequired => "Email is required"
    case EmailInvalid => "Please enter a valid email address"
    case PasswordRequired => "Password is required"
    case PasswordTooShort => "Password must be at least 6 characters"
  }

  /** The message shown when the login call fails without one of its own. */
  const SignInFailed := "Sign in failed"

  /** The first failing check of `handleSignIn`, in its order, or `None` when all pass. */
  function ValidationError(email: string, password: string): (e: Option<Check>)
    ensures Trim(email) == "" ==> e == Some(EmailRequired)
    ensures Trim(email) != "" && !IsValidEmail(email) ==> e == Some(EmailInvalid)
    ensures Trim(email) != "" && IsValidEmail(email) && Trim(password) == "" ==> e == Some(PasswordRequired)
    ensures Trim(email) != "" && IsValidEmail(email) && Trim(password) != "" && |password| < 6
      ==> e == Some(PasswordTooShort)
    ensures e.None? <==> Trim(email) != "" && IsValidEmail(email) && Trim(password) != "" && |password| >= 6
  {
    if Trim(email) == "" then Some(EmailRequired)
    else if !IsValidEmail(email) then Some(EmailInvalid)
    else if Trim(password) == "" then Some(PasswordRequired)
    else if |password| < 6 then Some(PasswordTooShort)
    else None
  }

  /** A password made only of spaces is reported as missing, never as too short. */
  lemma BlankPasswordIsMissing(email: string, password: string)
    requires Trim(email) != "" && IsValidEmail(email)
    requires forall k | 0 <= k < |password| :: password[k] == ' '
    ensures ValidationError(email, password) == Some(PasswordRequired)
  {
    TrimEmptyIffBlank(password);
  }

  /** An email the pattern accepts is never blank, so the first check can only fire when the
      second would too. */
  lemma ValidEmailIsNotBlank(email: string)
    requires IsValidEmail(email)
    ensures Trim(email) != ""
  {
    TrimEmptyIffBlank(email);
    var at := PyStr.IndexOf(email, '@');
    assert !IsJsSpace(email[at]);
  }

  // ---------------------------------------------------------------------------
  // The form state
  // ---------------------------------------------------------------------------

  /** How the login call ends: resolved with an optional `access_token`, or rejected with an
      error whose `message` may be absent. */
  datatype LoginOutcome = Resolved(accessToken: Option<string>) | Rejected(message: Option<string>)

  class SignInForm {
    var email: string
    var password: string
    var loading: bool
    var error: Option<string>
    var token: Option<string>
    /** The `(email, password)` pairs the login API was called with. */
    ghost var loginCalls: seq<(string, string)>

    constructor ()
      ensures email == "" && password == "" && !loading && error.None? && token.None? && loginCalls == []
    {
      email := "";
      password := "";
      loading := false;
      error := None;
      token := None;
      loginCalls := [];
    }

    /** `handleSignIn`: the error is cleared, the checks run in order, and only when they all
        pass is the login call made, with `loading` set around it. `outcome` is how that call
        ends. */
    method HandleSignIn(outcome: LoginOutcome)
      modifies this
      ensures email == old(email) && password == old(password)
      ensures ValidationError(old(email), old(password)).Some? ==>
        && error == Some(Message(ValidationError(old(email), old(password)).value))
        && loading == old(loading) && token == old(token) && loginCalls == old(loginCalls)
      ensures ValidationError(old(email), old(password)).None? ==>
        && loginCalls == old(loginCalls) + [(email, password)]
        && !loading
        && (outcome.Resolved? ==> token == outcome.accessToken && error.None?)
        && (outcome.Rejected? ==> token == old(token) && error == Some(outcome.message.GetOr(SignInFailed)))
    {
      var failed := ValidationError(email, password);
      error := None;
      if failed.Some? {
        error := Some(Message(failed.value));
        return;
      }
      Login(outcome);
    }

    /** The `try`/`finally` around the login call: `loading` is set while it runs, a token
        it resolves with is stored and a rejection sets the error. */
    method Login(outcome: LoginOutcome)
      modifies this
      ensures email == old(email) && password == old(password)
      ensures loginCalls == old(loginCalls) + [(email, password)] && !loading
      ensures outcome.Resolved? ==> token == outcome.accessToken && error == old(error)
      ensures outcome.Rejected? ==> token == old(token) && error == Some(outcome.message.GetOr(SignInFailed))
    {
      loading := true;
      loginCalls := loginCalls + [(email, password)];
      match outcome {
        case Resolved(t) => token := t;
        case Rejected(m) => error := Some(m.GetOr(SignInFailed));
      }
      loading := false;
    }
  }
}
