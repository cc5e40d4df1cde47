/**
 * The sign-in / sign-up form check of `src/pages/Auth.tsx` (`validateForm`): one error
 * message per field, in a fixed order of precedence, and the form is valid when no field
 * has an error.
 */
module Auth {
  import opened Wrappers
  import opened JsText

  const EmailRequired := "Email is required"
  const EmailInvalid := "Please enter a valid email address"
  const PasswordRequired := "Password is required"
  const PasswordTooShort := "Password must be at least 6 characters long"
  const ConfirmRequired := "Please confirm your password"
  const PasswordsDiffer := "Passwords do not match"

  /** The `Errors` object: a message for each field that failed, nothing for the others. */
  datatype FormErrors = FormErrors(email: Option<string>, password: Option<string>, confirmPassword: Option<string>)

  /** No character in `s[i..j]` is whitespace (each would match `\S`). */
  predicate Solid(s: string, i: int, j: int)
    requires 0 <= i <= j <= |s|
  {
    forall m :: i <= m < j ==> !IsSpace(s[m])
  }

  /**
   * What `/\S+@\S+\.\S+/.test(s)` accepts: somewhere in `s` (the pattern is not anchored) an
   * '@' at `p` and a '.' at `q`, with at least one character before the '@', between the two,
   * and after the '.', all of them (from `p - 1` to `q + 1`) non-whitespace.
   */
  predicate EmailPattern(s: string)
  {
    exists p, q :: 0 < p && p + 1 < q && q + 1 < |s| && s[p] == '@' && s[q] == '.' && Solid(s, p - 1, q + 2)
  }

  /** A match needs an '@', a later '.', and at least five characters ("a@b.c"). */
  lemma EmailPatternNeeds(s: string)
    requires EmailPattern(s)
    ensures |s| >= 5 && '@' in s && '.' in s
  {
    var p, q :| 0 < p && p + 1 < q && q + 1 < |s| && s[p] == '@' && s[q] == '.' && Solid(s, p - 1, q + 2);
    assert s[p] in s && s[q] in s;
  }

  /** The pattern is not anchored: text around an accepted address is accepted too. */
  lemma EmailPatternUnanchored(x: string, s: string, y: string)
    requires EmailPattern(s)
    ensures EmailPattern(x + s + y)
  {
    var p, q :| 0 < p && p + 1 < q && q + 1 < |s| && s[p] == '@' && s[q] == '.' && Solid(s, p - 1, q + 2);
    var t := x + s + y;
    var p', q' := |x| + p, |x| + q;
    assert forall m :: 0 <= m < |s| ==> t[|x| + m] == s[m];
    assert t[p'] == '@' && t[q'] == '.';
    assert Solid(t, p' - 1, q' + 2) by {
      forall m | p' - 1 <= m < q' + 2
        ensures !IsSpace(t[m])
      {
        assert t[m] == s[m - |x|];
      }
    }
  }

  /** A string with no '@' or no '.' is refused. */
  lemma EmailPatternRefuses(s: string)
    requires '@' !in s || '.' !in s
    ensures !EmailPattern(s)
  {
    if EmailPattern(s) {
      EmailPatternNeeds(s);
    }
  }

  /** No address spans whitespace: around a whitespace character, a match lies wholly on one side. */
  lemma EmailPatternSplitsAtSpace(x: string, c: char, y: string)
    requires IsSpace(c)
    ensures EmailPattern(x + [c] + y) <==> EmailPattern(x) || EmailPattern(y)
  {
    var t := x + [c] + y;
    if EmailPattern(t) {
      var p, q :| 0 < p && p + 1 < q && q + 1 < |t| && t[p] == '@' && t[q] == '.' && Solid(t, p - 1, q + 2);
      assert t[|x|] == c;
      if q + 2 <= |x| {
        assert forall m :: 0 <= m < |x| ==> t[m] == x[m];
        assert x[p] == '@' && x[q] == '.' && Solid(x, p - 1, q + 2);
      } else {
        var d := |x| + 1;
        assert p - 1 >= d;
        assert forall m :: 0 <= m < |y| ==> t[d + m] == y[m];
        assert y[p - d] == '@' && y[q - d] == '.';
        assert Solid(y, p - d - 1, q - d + 2) by {
          forall m | p - d - 1 <= m < q - d + 2
            ensures !IsSpace(y[m])
          {
            assert y[m] == t[d + m];
          }
        }
      }
    }
    if EmailPattern(x) {
      EmailPatternUnanchored([], x, [c] + y);
      assert [] + x + ([c] + y) == t;
    }
    if EmailPattern(y) {
      EmailPatternUnanchored(x + [c], y, []);
      assert x + [c] + y + [] == t;
    }
  }

  lemma EmailPatternExamples()
    ensures EmailPattern("user@example.com")
    ensures !EmailPattern("user@example")
    ensures !EmailPattern("user@ example.com")
  {
    var s := "user@example.com";
    assert s[4] == '@' && s[12] == '.' && Solid(s, 3, 14);
    EmailPatternRefuses("user@example");
    EmailPatternRefuses("user@");
    EmailPatternRefuses("example.com");
    EmailPatternSplitsAtSpace("user@", ' ', "example.com");
    assert "user@" + [' '] + "example.com" == "user@ example.com";
  }

  /**
   * `validateForm`, with `isLogin` choosing the login (true) or the sign-up (false) form.
   * `errors` is what it stores with `setErrors`, `valid` what it returns.
   */
  method ValidateForm(email: string, password: string, confirmPassword: string, isLogin: bool)
    returns (errors: FormErrors, valid: bool)
    ensures email == "" ==> errors.email == Some(EmailRequired)
    ensures email != "" && !EmailPattern(email) ==> errors.email == Some(EmailInvalid)
    ensures errors.email.None? <==> email != "" && EmailPattern(email)
    ensures password == "" ==> errors.password == Some(PasswordRequired)
    ensures password != "" && !isLogin && |password| < 6 ==> errors.password == Some(PasswordTooShort)
    ensures errors.password.None? <==> password != "" && (isLogin || |password| >= 6)
    ensures isLogin ==> errors.confirmPassword.None?
    ensures !isLogin && confirmPassword == "" ==> errors.confirmPassword == Some(ConfirmRequired)
    ensures !isLogin && confirmPassword != "" && password != confirmPassword ==> errors.confirmPassword == Some(PasswordsDiffer)
    ensures errors.confirmPassword.None? <==> isLogin || (confirmPassword != "" && password == confirmPassword)
    ensures valid <==> errors == FormErrors(None, None, None)
    ensures valid <==> && email != "" && EmailPattern(email) && password != ""
                       && (isLogin || (|password| >= 6 && confirmPassword == password))
  {
    errors := FormErrors(None, None, None);

    if email == "" {
      errors := errors.(email := Some(EmailRequired));
    } else if !EmailPattern(email) {
      errors := errors.(email := Some(EmailInvalid));
    }

    if password == "" {
      errors := errors.(password := Some(PasswordRequired));
    } else if !isLogin && |password| < 6 {
      errors := errors.(password := Some(PasswordTooShort));
    }

    if !isLogin {
      if confirmPassword == "" {
        errors := errors.(confirmPassword := Some(ConfirmRequired));
      } else if password != confirmPassword {
        errors := errors.(confirmPassword := Some(PasswordsDiffer));
      }
    }

    valid := errors.email.None? && errors.password.None? && errors.confirmPassword.None?;
  }
}
