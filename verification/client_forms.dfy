/** The sign-up and sign-in form checks of the storefront's pages: the three
    password rules of the registration page and its submit guard, and the
    non-blank check of the login page (JavaScript `String.prototype.trim`). */
module ClientForms {
  import opened Models

  // ---------------------------------------------------------------------
  // Registration
  // ---------------------------------------------------------------------

  predicate IsUpper(c: char)
  {
    'A' <= c <= 'Z'
  }

  /** `/[A-Z]/` scanning left to right: the position of the first match. */
  function FirstUppercase(s: string): (r: Option<nat>)
    ensures r.Some? ==> r.value < |s| && IsUpper(s[r.value])
    ensures r.Some? ==> forall j :: 0 <= j < r.value ==> !IsUpper(s[j])
    ensures r.None? <==> forall j :: 0 <= j < |s| ==> !IsUpper(s[j])
  {
    if |s| == 0 then None
    else if IsUpper(s[0]) then Some(0)
    else
      match FirstUppercase(s[1..])
      case None => None
      case Some(k) => Some(k + 1)
  }

  /** `String.prototype.length`: UTF-16 code units, two for a character
      outside the Basic Multilingual Plane. */
  function Utf16Length(s: string): (r: nat)
    ensures |s| <= r <= 2 * |s|
  {
    if |s| == 0 then 0
    else Utf16Length(s[..|s| - 1]) + (if s[|s| - 1] as int >= 0x1_0000 then 2 else 1)
  }

  /** The live indicators under the password fields and their conjunction. */
  datatype PasswordChecks = PasswordChecks(lengthOk: bool, hasUppercase: bool, matches: bool, valid: bool)

  function CheckPassword(password: string, confirm: string): (r: PasswordChecks)
    ensures r.lengthOk <==> Utf16Length(password) >= 6
    ensures r.hasUppercase <==> exists i :: 0 <= i < |password| && IsUpper(password[i])
    ensures r.matches <==> password == confirm
    ensures r.valid <==> Utf16Length(password) >= 6 && password == confirm &&
                         exists i :: 0 <= i < |password| && IsUpper(password[i])
  {
    var lengthOk := Utf16Length(password) >= 6;
    var hasUppercase := FirstUppercase(password).Some?;
    var matches := password == confirm;
    PasswordChecks(lengthOk, hasUppercase, matches, lengthOk && hasUppercase && matches)
  }

  const RequirementsError := "Please meet all password requirements."

  datatype RegisterRequest = RegisterRequest(name: string, email: string, password: string)

  /** Submitting the form: either the error is set and nothing is sent, or
      the sign-up request carries the three fields as typed. */
  datatype RegisterResult = Rejected(error: string) | Posted(request: RegisterRequest)

  function RegisterSubmit(name: string, email: string, password: string, confirm: string): (r: RegisterResult)
    ensures r.Rejected? <==> !CheckPassword(password, confirm).valid
    ensures r.Rejected? ==> r.error == RequirementsError
    ensures r.Posted? ==> r.request == RegisterRequest(name, email, password) && password == confirm
  {
    if !CheckPassword(password, confirm).valid then Rejected(RequirementsError)
    else Posted(RegisterRequest(name, email, password))
  }

  /** The "Create account" button. */
  function RegisterButtonDisabled(password: string, confirm: string): (r: bool)
    ensures r <==> Utf16Length(password) < 6 || password != confirm ||
                   forall i :: 0 <= i < |password| ==> !IsUpper(password[i])
  {
    !CheckPassword(password, confirm).valid
  }

  /** The button is disabled exactly when a submission would be refused,
      whatever name and e-mail were typed. */
  lemma ButtonMatchesGuard(name: string, email: string, password: string, confirm: string)
    ensures RegisterButtonDisabled(password, confirm) <==> RegisterSubmit(name, email, password, confirm).Rejected?
  {
  }

  /** Five characters, one of them outside the Basic Multilingual Plane,
      make a length of six: the form accepts them. Five characters inside it
      do not. */
  lemma LengthCountsCodeUnits()
    ensures Utf16Length("Abcd\U{1F600}") == 6
    ensures RegisterSubmit("n", "e", "Abcd\U{1F600}", "Abcd\U{1F600}").Posted?
    ensures RegisterSubmit("n", "e", "Abcde", "Abcde").Rejected?
  {
    var s := "Abcd\U{1F600}";
    assert s[..4] == "Abcd" && s[..4][..3] == "Abc" && s[..3][..2] == "Ab" && s[..2][..1] == "A";
    assert Utf16Length("A") == 1 by { assert "A"[..0] == ""; }
    assert Utf16Length("Ab") == 2 by { assert "Ab"[..1] == "A"; }
    assert Utf16Length("Abc") == 3 by { assert "Abc"[..2] == "Ab"; }
    assert Utf16Length("Abcd") == 4 by { assert "Abcd"[..3] == "Abc"; }
    assert "Abcde"[..4] == "Abcd";
    assert IsUpper(s[0]);
  }

  // ---------------------------------------------------------------------
  // Login
  // ---------------------------------------------------------------------

  /** The code points `trim` removes: ECMAScript WhiteSpace (including the
      space separators) and LineTerminator. */
  predicate IsJsSpace(c: char)
  {
    c == '\t' || c == '\n' || c == '\U{B}' || c == '\U{C}' || c == '\r' || c == ' ' ||
    c == '\U{A0}' || c == '\U{1680}' || ('\U{2000}' <= c <= '\U{200A}') ||
    c == '\U{2028}' || c == '\U{2029}' || c == '\U{202F}' || c == '\U{205F}' ||
    c == '\U{3000}' || c == '\U{FEFF}'
  }

  function TrimStart(s: string): (r: string)
    ensures |r| <= |s| && r == s[|s| - |r|..]
    ensures forall i :: 0 <= i < |s| - |r| ==> IsJsSpace(s[i])
    ensures |r| == 0 || !IsJsSpace(r[0])
  {
    if |s| > 0 && IsJsSpace(s[0]) then TrimStart(s[1..]) else s
  }

  function TrimEnd(s: string): (r: string)
    ensures |r| <= |s| && r == s[..|r|]
    ensures forall i :: |r| <= i < |s| ==> IsJsSpace(s[i])
    ensures |r| == 0 || !IsJsSpace(r[|r| - 1])
  {
    if |s| > 0 && IsJsSpace(s[|s| - 1]) then TrimEnd(s[..|s| - 1]) else s
  }

  function Trim(s: string): string
  {
    TrimEnd(TrimStart(s))
  }

  /** A string trims to nothing exactly when every character is white space. */
  lemma {:induction false} TrimEmptyIff(s: string)
    ensures Trim(s) == "" <==> forall i :: 0 <= i < |s| ==> IsJsSpace(s[i])
  {
    var t := TrimStart(s);
    if |t| > 0 {
      assert !IsJsSpace(t[0]);
      var u := TrimEnd(t);
      assert |u| > 0;
      assert s[|s| - |t|] == t[0];
    }
  }

  /** `email.trim() !== '' && password.trim() !== ''` */
  function LoginFormValid(email: string, password: string): (r: bool)
    ensures r <==> (exists i :: 0 <= i < |email| && !IsJsSpace(email[i])) &&
                   (exists i :: 0 <= i < |password| && !IsJsSpace(password[i]))
  {
    TrimEmptyIff(email);
    TrimEmptyIff(password);
    Trim(email) != "" && Trim(password) != ""
  }
}
