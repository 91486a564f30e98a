/** The registration form (client/src/pages/RegisterPage.jsx): the
    contact-number input filter, the ordered first-failure check of the four
    fields, and the gate in front of the register request. */
module Register {
  import opened Common

  // ---------------------------------------------------------------------------
  // The contact-number filter: value.replace(/\D/g, '')
  // ---------------------------------------------------------------------------

  /** The digits of `s`, in order. */
  function DigitsOnly(s: string): (r: string)
    ensures AllDigits(r) && |r| <= |s|
    decreases |s|
  {
    if s == [] then []
    else
      var rest := DigitsOnly(s[..|s| - 1]);
      if IsDigit(s[|s| - 1]) then rest + [s[|s| - 1]] else rest
  }

  /** The filter works character by character. */
  lemma {:induction false} DigitsOnlyConcat(a: string, b: string)
    ensures DigitsOnly(a + b) == DigitsOnly(a) + DigitsOnly(b)
    decreases |b|
  {
    if b == [] {
      assert a + b == a;
    } else {
      var b' := b[..|b| - 1];
      assert (a + b)[..|a + b| - 1] == a + b';
      assert (a + b)[|a + b| - 1] == b[|b| - 1];
      DigitsOnlyConcat(a, b');
    }
  }

  /** A string of digits passes the filter unchanged. */
  lemma {:induction false} DigitsOnlyKeepsDigits(s: string)
    requires AllDigits(s)
    ensures DigitsOnly(s) == s
    decreases |s|
  {
    if s != [] {
      DigitsOnlyKeepsDigits(s[..|s| - 1]);
      assert s == s[..|s| - 1] + [s[|s| - 1]];
    }
  }

  // ---------------------------------------------------------------------------
  // The e-mail pattern /^[^\s@]+@[^\s@]+\.[^\s@]+$/
  // ---------------------------------------------------------------------------

  /** `[^\s@]+` */
  predicate Plain(x: string) {
    |x| > 0 && forall k :: 0 <= k < |x| ==> !IsSpace(x[k]) && x[k] != '@'
  }

  /** The whole string is X@Y.Z with X, Y and Z non-empty and free of white
      space and '@'; `i` is the '@' and `j` the '.'. */
  predicate ShapeAt(s: string, i: int, j: int) {
    && 0 < i && i + 1 < j && j + 1 < |s|
    && s[i] == '@' && s[j] == '.'
    && Plain(s[..i]) && Plain(s[i + 1..j]) && Plain(s[j + 1..])
  }

  /** `emailRegex.test(email)` */
  predicate AnchoredEmail(s: string) {
    exists i, j | 0 <= i < |s| && 0 <= j < |s| :: ShapeAt(s, i, j)
  }

  /** The pattern holds exactly for a white-space-free string with a single
      '@', not first, followed later by a '.' that is neither right after the
      '@' nor last. */
  lemma AnchoredEmailIff(s: string)
    ensures AnchoredEmail(s) <==>
      && SpaceFree(s)
      && exists i, j | 0 < i < |s| && 0 <= j < |s| ::
           && s[i] == '@' && (forall k | 0 <= k < |s| && k != i :: s[k] != '@')
           && i + 1 < j < |s| - 1 && s[j] == '.'
  {
    if AnchoredEmail(s) {
      var i, j :| 0 <= i < |s| && 0 <= j < |s| && ShapeAt(s, i, j);
      forall k | 0 <= k < |s|
        ensures !IsSpace(s[k]) && (k != i ==> s[k] != '@')
      {
        if k < i {
          assert s[k] == s[..i][k];
        } else if i < k < j {
          assert s[k] == s[i + 1..j][k - i - 1];
        } else if k > j {
          assert s[k] == s[j + 1..][k - j - 1];
        }
      }
    }
    if && SpaceFree(s)
       && exists i, j | 0 < i < |s| && 0 <= j < |s| ::
            && s[i] == '@' && (forall k | 0 <= k < |s| && k != i :: s[k] != '@')
            && i + 1 < j < |s| - 1 && s[j] == '.'
    {
      var i, j :| 0 < i < |s| && 0 <= j < |s|
        && s[i] == '@' && (forall k | 0 <= k < |s| && k != i :: s[k] != '@')
        && i + 1 < j < |s| - 1 && s[j] == '.';
      assert Plain(s[..i]) && Plain(s[i + 1..j]) && Plain(s[j + 1..]);
      assert ShapeAt(s, i, j);
    }
  }

  // ---------------------------------------------------------------------------
  // validateForm
  // ---------------------------------------------------------------------------

  /** The four fields of the form. */
  datatype RegisterData = RegisterData(username: string, email: string, contactNumber: string, password: string)

  predicate HasUpper(s: string) {
    exists k | 0 <= k < |s| :: IsUpper(s[k])
  }

  predicate HasDigit(s: string) {
    exists k | 0 <= k < |s| :: IsDigit(s[k])
  }

  /** The rules, one per field. The contact number is optional; when given it
      is ten digits. */
  predicate UsernameOk(u: string) { !IsBlank(u) && |u| >= 3 }
  predicate EmailOk(e: string) { !IsBlank(e) && AnchoredEmail(e) }
  predicate ContactOk(c: string) { IsBlank(c) || (|c| == 10 && AllDigits(c)) }
  predicate PasswordOk(p: string) { !IsBlank(p) && |p| >= 6 && HasUpper(p) && HasDigit(p) }

  /** The username, e-mail and contact rules hold, so the password rules decide. */
  predicate ReachesPassword(f: RegisterData) {
    UsernameOk(f.username) && EmailOk(f.email) && ContactOk(f.contactNumber)
  }

  /** `validateForm`: the message of the first failing rule, or `null` (None). */
  function ValidateRegister(f: RegisterData): (r: Option<string>)
    ensures r == None <==> ReachesPassword(f) && PasswordOk(f.password)
    ensures IsBlank(f.username) ==> r == Some("Username is required.")
    ensures !IsBlank(f.username) && |f.username| < 3 ==> r == Some("Username must be at least 3 characters long.")
    ensures UsernameOk(f.username) && IsBlank(f.email) ==> r == Some("Email is required.")
    ensures UsernameOk(f.username) && !IsBlank(f.email) && !AnchoredEmail(f.email) ==>
      r == Some("Please enter a valid email address.")
    ensures UsernameOk(f.username) && EmailOk(f.email) && !ContactOk(f.contactNumber) ==>
      r == Some("Contact number must be exactly 10 digits.")
    ensures ReachesPassword(f) && IsBlank(f.password) ==> r == Some("Password is required.")
    ensures ReachesPassword(f) && !IsBlank(f.password) && |f.password| < 6 ==>
      r == Some("Password must be at least 6 characters long.")
    ensures ReachesPassword(f) && !IsBlank(f.password) && |f.password| >= 6 && !HasUpper(f.password) ==>
      r == Some("Password must contain at least one uppercase letter.")
    ensures ReachesPassword(f) && !IsBlank(f.password) && |f.password| >= 6 && HasUpper(f.password) && !HasDigit(f.password) ==>
      r == Some("Password must contain at least one number.")
  {
    TrimEmptyIffBlank(f.username);
    TrimEmptyIffBlank(f.email);
    TrimEmptyIffBlank(f.contactNumber);
    TrimEmptyIffBlank(f.password);
    if Trim(f.username) == "" then Some("Username is required.")
    else if |f.username| < 3 then Some("Username must be at least 3 characters long.")
    else if Trim(f.email) == "" then Some("Email is required.")
    else if !AnchoredEmail(f.email) then Some("Please enter a valid email address.")
    else if Trim(f.contactNumber) != "" && !(|f.contactNumber| == 10 && AllDigits(f.contactNumber)) then
      Some("Contact number must be exactly 10 digits.")
    else if Trim(f.password) == "" then Some("Password is required.")
    else if |f.password| < 6 then Some("Password must be at least 6 characters long.")
    else if !HasUpper(f.password) then Some("Password must contain at least one uppercase letter.")
    else if !HasDigit(f.password) then Some("Password must contain at least one number.")
    else None
  }

  /** The first rule to fail is reported, whatever the later fields hold: a
      missing username hides a bad e-mail. */
  lemma FirstFailureExamples()
    ensures ValidateRegister(RegisterData("", "not an email", "12", "x")) == Some("Username is required.")
    ensures ValidateRegister(RegisterData("ab", "", "", "")) == Some("Username must be at least 3 characters long.")
  {
    assert IsBlank("");
    assert !IsBlank("ab") by { assert !IsSpace("ab"[0]); }
  }

  /** An empty contact number passes; a short one does not. */
  lemma ContactExamples()
    ensures ValidateRegister(RegisterData("alice", "a@b.co", "", "Secret1")) == None
    ensures ValidateRegister(RegisterData("alice", "a@b.co", "12345", "Secret1")) == Some("Contact number must be exactly 10 digits.")
  {
    assert ShapeAt("a@b.co", 1, 3);
    assert HasUpper("Secret1") by { assert IsUpper("Secret1"[0]); }
    assert HasDigit("Secret1") by { assert IsDigit("Secret1"[6]); }
    assert !IsBlank("12345") by { assert !IsSpace("12345"[0]); }
    assert !IsBlank("alice") by { assert !IsSpace("alice"[0]); }
    assert !IsBlank("a@b.co") by { assert !IsSpace("a@b.co"[0]); }
    assert !IsBlank("Secret1") by { assert !IsSpace("Secret1"[0]); }
    assert IsBlank("");
  }

  /** Once the other fields pass, a password of six or more characters without
      an upper-case letter is refused for that reason, digits or not. */
  lemma PasswordNeedsUpper(f: RegisterData)
    requires UsernameOk(f.username) && EmailOk(f.email) && ContactOk(f.contactNumber)
    requires !IsBlank(f.password) && |f.password| >= 6 && !HasUpper(f.password)
    ensures ValidateRegister(f) == Some("Password must contain at least one uppercase letter.")
  {
    TrimEmptyIffBlank(f.username);
    TrimEmptyIffBlank(f.email);
    TrimEmptyIffBlank(f.contactNumber);
    TrimEmptyIffBlank(f.password);
  }

  // ---------------------------------------------------------------------------
  // The page state
  // ---------------------------------------------------------------------------

  /** The form state, the error and success banners. */
  class RegisterPage {
    var form: map<string, string>
    var error: string
    var success: string

    /** The four properties are present and the contact number is at most ten digits. */
    predicate Valid()
      reads this
    {
      && "username" in form && "email" in form && "contactNumber" in form && "password" in form
      && AllDigits(form["contactNumber"]) && |form["contactNumber"]| <= 10
    }

    function Data(): RegisterData
      reads this
      requires Valid()
    {
      RegisterData(form["username"], form["email"], form["contactNumber"], form["password"])
    }

    constructor ()
      ensures Valid()
      ensures form == map["username" := "", "email" := "", "contactNumber" := "", "password" := ""]
      ensures error == "" && success == ""
    {
      form := map["username" := "", "email" := "", "contactNumber" := "", "password" := ""];
      error := "";
      success := "";
    }

    /** `handleChange`: the contact number keeps only its digits, and an edit
        giving more than ten of them is dropped; any other field is stored as
        typed. No other field changes. */
    method HandleChange(name: string, value: string)
      requires Valid()
      modifies this
      ensures Valid()
      ensures name == "contactNumber" && |DigitsOnly(value)| > 10 ==> form == old(form)
      ensures name == "contactNumber" && |DigitsOnly(value)| <= 10 ==> form == old(form)[name := DigitsOnly(value)]
      ensures name != "contactNumber" ==> form == old(form)[name := value]
      ensures forall k :: k != name ==> (k in form <==> k in old(form)) && (k in form ==> form[k] == old(form)[k])
      ensures error == old(error) && success == old(success)
    {
      if name == "contactNumber" {
        var onlyNumbers := DigitsOnly(value);
        if |onlyNumbers| > 10 {
          return;
        }
        form := form[name := onlyNumbers];
      } else {
        form := form[name := value];
      }
    }

    /** `handleSubmit` up to the request: both banners are cleared, and a
        failing check shows its message and sends nothing; otherwise the form
        is posted. */
    method HandleSubmit() returns (sent: Option<RegisterData>)
      requires Valid()
      modifies this
      ensures Valid() && form == old(form) && success == ""
      ensures sent.Some? <==> ValidateRegister(Data()) == None
      ensures sent.Some? ==> sent.value == Data() && error == ""
      ensures sent.None? ==> error == ValidateRegister(Data()).value
    {
      error := "";
      success := "";
      var validationError := ValidateRegister(Data());
      if validationError.Some? {
        error := validationError.value;
        return None;
      }
      sent := Some(Data());
    }

    /** The reply to the register request. The request library fails on any
        status outside 200-299, and `failure` is then the server's message (or
        the library's own). A 201 shows the success banner and clears the form;
        another 2xx status shows an error. */
    method OnRegisterResponse(status: int, failure: string)
      requires Valid()
      modifies this
      ensures Valid()
      ensures status == 201 ==>
        && success == "Registration successful! Redirecting to login..." && error == old(error)
        && form == map["username" := "", "email" := "", "contactNumber" := "", "password" := ""]
      ensures 200 <= status < 300 && status != 201 ==> error == "Unexpected server response." && form == old(form) && success == old(success)
      ensures !(200 <= status < 300) ==> error == "Registration failed: " + failure && form == old(form) && success == old(success)
    {
      if !(200 <= status < 300) {
        error := "Registration failed: " + failure;
      } else if status == 201 {
        success := "Registration successful! Redirecting to login...";
        form := map["username" := "", "email" := "", "contactNumber" := "", "password" := ""];
      } else {
        error := "Unexpected server response.";
      }
    }
  }
}
