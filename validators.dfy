/** The per-field validators of the resume form (client/src/pages/ResumeBuilder.jsx,
    lines 120-219). Every validator returns "" for an accepted value and a
    user-facing message otherwise; `ValidateField` dispatches on the section and
    field name. The regular expressions are written out as predicates on
    strings, and `Number(...)` on a decimal string as exact rational arithmetic. */
module Validators {
  import opened Common

  /** The form sections; `Name` is the string the source uses for each. */
  datatype Section = Personal | Education | Experience | Projects | Skills | Socials {
    function Name(): string {
      match this
      case Personal => "personal"
      case Education => "education"
      case Experience => "experience"
      case Projects => "projects"
      case Skills => "skills"
      case Socials => "socials"
    }

    /** The sections held as arrays of records. */
    predicate IsArray() {
      !Personal?
    }
  }

  // ---------------------------------------------------------------------------
  // validateRequired
  // ---------------------------------------------------------------------------

  /** A value is present unless it is undefined/null or a string of white space. */
  function ValidateRequired(v: Field, caption: string): (msg: string)
    ensures msg == "" <==> v.Str? && !IsBlank(v.s)
    ensures msg != "" ==> msg == caption + " is required"
  {
    if v.Absent? then caption + " is required"
    else
      TrimEmptyIffBlank(v.s);
      if Trim(v.s) == "" then caption + " is required" else ""
  }

  // ---------------------------------------------------------------------------
  // validateEmail: the unanchored pattern /\S+@\S+\.\S+/
  // ---------------------------------------------------------------------------

  /** The pattern read literally: some substring X@Y.Z of `s` with X, Y and Z
      non-empty and free of white space. */
  ghost predicate ContainsEmailLike(s: string) {
    exists a, i, j, e {:trigger SpaceFree(s[a..i]), SpaceFree(s[j + 1..e])} ::
      && 0 <= a < i && i + 1 < j && j + 1 < e <= |s|
      && s[i] == '@' && s[j] == '.'
      && SpaceFree(s[a..i]) && SpaceFree(s[i + 1..j]) && SpaceFree(s[j + 1..e])
  }

  /** A match with X and Z one character long, anchored at the '@' (index i)
      and the '.' (index j). */
  predicate EmailMatchAt(s: string, i: int, j: int) {
    && 0 < i && i + 1 < j && j + 1 < |s|
    && s[i] == '@' && s[j] == '.'
    && !IsSpace(s[i - 1]) && !IsSpace(s[j + 1]) && SpaceFree(s[i + 1..j])
  }

  /** `/\S+@\S+\.\S+/.test(s)` */
  predicate EmailTest(s: string) {
    exists i, j | 0 <= i < |s| && 0 <= j < |s| :: EmailMatchAt(s, i, j)
  }

  lemma EmailTestIsPattern(s: string)
    ensures EmailTest(s) <==> ContainsEmailLike(s)
  {
    if EmailTest(s) {
      EmailTestSound(s);
    }
    if ContainsEmailLike(s) {
      EmailTestComplete(s);
    }
  }

  /** A one-character match around the '@' and the '.' is a match of the pattern. */
  lemma EmailTestSound(s: string)
    requires EmailTest(s)
    ensures ContainsEmailLike(s)
  {
    var i, j :| 0 <= i < |s| && 0 <= j < |s| && EmailMatchAt(s, i, j);
    assert SpaceFree(s[i - 1..i]) && SpaceFree(s[i + 1..j]) && SpaceFree(s[j + 1..j + 2]);
  }

  /** Every match of the pattern contains a one-character match. */
  lemma EmailTestComplete(s: string)
    requires ContainsEmailLike(s)
    ensures EmailTest(s)
  {
    var a, i, j, e :| && 0 <= a < i && i + 1 < j && j + 1 < e <= |s|
      && s[i] == '@' && s[j] == '.'
      && SpaceFree(s[a..i]) && SpaceFree(s[i + 1..j]) && SpaceFree(s[j + 1..e]);
    assert s[i - 1] == s[a..i][i - 1 - a];
    assert s[j + 1] == s[j + 1..e][0];
    assert EmailMatchAt(s, i, j);
  }

  function ValidateEmail(v: Field): (msg: string)
    ensures !Truthy(v) ==> msg == "Email is required"
    ensures Truthy(v) ==> (msg == "" <==> ContainsEmailLike(v.s))
    ensures Truthy(v) && msg != "" ==> msg == "Invalid email address"
    ensures msg == "" ==> v.Str? && '@' in v.s
  {
    if !Truthy(v) then "Email is required"
    else
      EmailTestIsPattern(v.s);
      if EmailTest(v.s) then "" else "Invalid email address"
  }

  // ---------------------------------------------------------------------------
  // validatePhone
  // ---------------------------------------------------------------------------

  function ValidatePhone(v: Field): (msg: string)
    ensures msg == "" <==> v.Str? && |v.s| == 10 && AllDigits(v.s)
    ensures !Truthy(v) ==> msg == "Phone is required"
    ensures Truthy(v) && !AllDigits(v.s) ==> msg == "Phone must contain only digits"
    ensures Truthy(v) && AllDigits(v.s) && |v.s| != 10 ==> msg == "Phone must be 10 digits"
  {
    if !Truthy(v) then "Phone is required"
    else if !DigitString(v.s) then "Phone must contain only digits"
    else if |v.s| != 10 then "Phone must be 10 digits"
    else ""
  }

  // ---------------------------------------------------------------------------
  // Decimal strings: /^\d+(\.\d+)?$/ and Number(...)
  // ---------------------------------------------------------------------------

  /** `/^\d+(\.\d+)?$/.test(s)` */
  predicate IsDecimal(s: string) {
    || DigitString(s)
    || exists p | 0 < p < |s| :: s[p] == '.' && DigitString(s[..p]) && DigitString(s[p + 1..])
  }

  /** The index of the first '.' in `s`, or |s| when there is none. */
  function DotIndex(s: string): (p: nat)
    ensures p <= |s|
    ensures p < |s| ==> s[p] == '.'
    ensures forall k :: 0 <= k < p ==> s[k] != '.'
  {
    if s == [] || s[0] == '.' then 0
    else
      var p := 1 + DotIndex(s[1..]);
      assert forall k :: 1 <= k < p ==> s[k] == s[1..][k - 1];
      p
  }

  /** A decimal string splits at its first '.' into an integer part and an
      optional fraction. */
  lemma DecimalParts(s: string)
    requires IsDecimal(s)
    ensures DigitString(s[..DotIndex(s)])
    ensures DotIndex(s) < |s| ==> DigitString(s[DotIndex(s) + 1..])
  {
    var d := DotIndex(s);
    if DigitString(s) {
      assert d == |s|;
      assert s[..d] == s;
    } else {
      var p :| 0 < p < |s| && s[p] == '.' && DigitString(s[..p]) && DigitString(s[p + 1..]);
      FirstDot(s, p);
    }
  }

  /** A '.' preceded only by digits is the first '.'. */
  lemma FirstDot(s: string, p: nat)
    requires p < |s| && s[p] == '.' && AllDigits(s[..p])
    ensures DotIndex(s) == p
  {
  }

  /** `0.d1 d2 d3 ...` for a digit string d1 d2 d3 ... */
  function FracValue(s: string): real
    requires AllDigits(s)
    decreases |s|
  {
    if s == [] then 0.0 else (DigitValue(s[0]) as real + FracValue(s[1..])) / 10.0
  }

  /** `Number(s)` for a decimal string, as an exact rational. */
  function DecimalValue(s: string): real
    requires IsDecimal(s)
  {
    DecimalParts(s);
    var p := DotIndex(s);
    IntValue(s[..p]) as real + (if p < |s| then FracValue(s[p + 1..]) else 0.0)
  }

  lemma {:induction false} FracValueBounds(s: string)
    requires AllDigits(s)
    ensures 0.0 <= FracValue(s) < 1.0
    ensures FracValue(s) == 0.0 <==> forall k :: 0 <= k < |s| ==> s[k] == '0'
    decreases |s|
  {
    if s != [] {
      FracValueBounds(s[1..]);
      assert (forall k :: 0 <= k < |s| ==> s[k] == '0')
        <==> s[0] == '0' && (forall k :: 0 <= k < |s[1..]| ==> s[1..][k] == '0') by {
        if s[0] == '0' && (forall k :: 0 <= k < |s[1..]| ==> s[1..][k] == '0') {
          forall k | 0 <= k < |s| ensures s[k] == '0' {
            if k > 0 { assert s[k] == s[1..][k - 1]; }
          }
        }
      }
    }
  }

  /** Digit-level reading of "at most 100": the integer part is below 100,
      or is 100 with a fraction of zeros only. */
  predicate DigitsAtMostHundred(s: string)
    requires IsDecimal(s)
  {
    DecimalParts(s);
    var p := DotIndex(s);
    IntValue(s[..p]) < 100 || (IntValue(s[..p]) == 100 && forall k :: p < k < |s| ==> s[k] == '0')
  }

  /** `Number(s)` of a decimal string is never negative, and is at most 100
      exactly when its digits say so. */
  lemma DecimalAtMostHundred(s: string)
    requires IsDecimal(s)
    ensures DecimalValue(s) >= 0.0
    ensures DecimalValue(s) <= 100.0 <==> DigitsAtMostHundred(s)
  {
    DecimalParts(s);
    var p := DotIndex(s);
    if p < |s| {
      var f := s[p + 1..];
      FracValueBounds(f);
      assert (forall k :: p < k < |s| ==> s[k] == '0') <==> (forall k :: 0 <= k < |f| ==> f[k] == '0') by {
        forall k | 0 <= k < |f| ensures f[k] == s[p + 1 + k] { }
        if forall k :: 0 <= k < |f| ==> f[k] == '0' {
          forall k | p < k < |s| ensures s[k] == '0' {
            assert s[k] == f[k - p - 1];
          }
        }
      }
    }
  }

  function ValidatePositiveNumber(v: Field, caption: string): (msg: string)
    ensures msg == "" <==> v.Str? && IsDecimal(v.s)
    ensures (v.Absent? || v == Str("")) ==> msg == caption + " is required"
    ensures v.Str? && v.s != "" && !IsDecimal(v.s) ==> msg == caption + " must be a positive number"
  {
    if v.Absent? || v.s == "" then caption + " is required"
    else if !IsDecimal(v.s) then caption + " must be a positive number"
    else
      DecimalAtMostHundred(v.s);
      if DecimalValue(v.s) < 0.0 then caption + " must be positive"
      else ""
  }

  function ValidatePercentage(v: Field): (msg: string)
    ensures msg == "" <==> v.Str? && IsDecimal(v.s) && DecimalValue(v.s) <= 100.0
    ensures (v.Absent? || v == Str("")) ==> msg == "Percentage is required"
    ensures v.Str? && v.s != "" && !IsDecimal(v.s) ==> msg == "Percentage must be a number"
  {
    if v.Absent? || v.s == "" then "Percentage is required"
    else if !IsDecimal(v.s) then "Percentage must be a number"
    else
      DecimalAtMostHundred(v.s);
      var n := DecimalValue(v.s);
      if n < 0.0 || n > 100.0 then "Percentage must be between 0 and 100"
      else ""
  }

  // ---------------------------------------------------------------------------
  // The remaining field rules of validateField
  // ---------------------------------------------------------------------------

  function ValidatePincode(v: Field): (msg: string)
    ensures msg == "" <==> v.Str? && DigitString(v.s)
    ensures !Truthy(v) ==> msg == "Pincode is required"
    ensures Truthy(v) && !DigitString(v.s) ==> msg == "Pincode must be numeric"
  {
    if !Truthy(v) then "Pincode is required"
    else if !DigitString(v.s) then "Pincode must be numeric"
    else ""
  }

  function ValidateSkillLevel(v: Field): (msg: string)
    ensures msg == "" <==> v.Str? && DigitString(v.s) && IntValue(v.s) <= 100
    ensures (v.Absent? || v == Str("")) ==> msg == "Skill level is required"
    ensures v.Str? && v.s != "" && !DigitString(v.s) ==> msg == "Skill level must be an integer 0-100"
    ensures v.Str? && DigitString(v.s) && IntValue(v.s) > 100 ==> msg == "Skill level must be between 0 and 100"
  {
    if v.Absent? || v.s == "" then "Skill level is required"
    else if !DigitString(v.s) then "Skill level must be an integer 0-100"
    else if IntValue(v.s) > 100 then "Skill level must be between 0 and 100"
    else ""
  }

  /** `/^https?:\/\/.+/.test(s)`: the scheme prefix followed by at least one
      character other than a line terminator. */
  predicate IsHttpLink(s: string) {
    || (StartsWith(s, "http://") && |s| > 7 && !IsLineTerminator(s[7]))
    || (StartsWith(s, "https://") && |s| > 8 && !IsLineTerminator(s[8]))
  }

  /** The acceptance policy of the form, field by field, stated with the
      pattern-level predicates above. Fields without a rule accept anything. */
  ghost predicate Accepted(section: Section, field: string, v: Field) {
    match section
    case Personal =>
      && (field == "name" || field == "city" || field == "state" ==> v.Str? && !IsBlank(v.s))
      && (field == "email" ==> v.Str? && ContainsEmailLike(v.s))
      && (field == "phone" ==> v.Str? && |v.s| == 10 && AllDigits(v.s))
      && (field == "pincode" ==> v.Str? && DigitString(v.s))
    case Education =>
      && (field == "degree" || field == "institution" ==> v.Str? && !IsBlank(v.s))
      && (field == "percentage" ==> v.Str? && IsDecimal(v.s) && DecimalValue(v.s) <= 100.0)
    case Experience =>
      && (field == "organization" || field == "position" ==> v.Str? && !IsBlank(v.s))
      && (field == "ctc" ==> v.Str? && IsDecimal(v.s))
    case Projects =>
      && (field == "title" ==> v.Str? && !IsBlank(v.s))
      && (field == "teamSize" && Truthy(v) ==> IsDecimal(v.s))
    case Skills =>
      && (field == "name" ==> v.Str? && !IsBlank(v.s))
      && (field == "level" ==> v.Str? && DigitString(v.s) && IntValue(v.s) <= 100)
    case Socials =>
      field == "link" && Truthy(v) ==> IsHttpLink(v.s)
  }

  /** validateField: the message for one field of one section. */
  function ValidateField(section: Section, field: string, value: Field): (msg: string)
    ensures msg == "" <==> Accepted(section, field, value)
  {
    match section
    case Personal =>
      if field == "name" then ValidateRequired(value, "Name")
      else if field == "email" then ValidateEmail(value)
      else if field == "phone" then ValidatePhone(value)
      else if field == "city" then ValidateRequired(value, "City")
      else if field == "state" then ValidateRequired(value, "State")
      else if field == "pincode" then ValidatePincode(value)
      else ""
    case Education =>
      if field == "degree" then ValidateRequired(value, "Degree")
      else if field == "institution" then ValidateRequired(value, "Institution")
      else if field == "percentage" then ValidatePercentage(value)
      else ""
    case Experience =>
      if field == "organization" then ValidateRequired(value, "Organization")
      else if field == "position" then ValidateRequired(value, "Position")
      else if field == "ctc" then ValidatePositiveNumber(value, "CTC")
      else ""
    case Projects =>
      if field == "title" then ValidateRequired(value, "Project Title")
      else if field == "teamSize" then (if Truthy(value) then ValidatePositiveNumber(value, "Team size") else "")
      else ""
    case Skills =>
      if field == "name" then ValidateRequired(value, "Skill name")
      else if field == "level" then ValidateSkillLevel(value)
      else ""
    case Socials =>
      if field == "link" && Truthy(value) && !IsHttpLink(value.s) then "Link must start with http:// or https://"
      else ""
  }

  /** Rejected examples of the design: an empty required field and a
      nine-digit phone number. */
  lemma RejectedFieldExamples()
    ensures ValidateField(Personal, "name", Str("")) == "Name is required"
    ensures ValidateField(Personal, "phone", Str("123456789")) == "Phone must be 10 digits"
  {
    assert ValidateField(Personal, "name", Str("")) == "Name is required";
  }

  /** An e-mail address without '@' and the skill level 101 are rejected. */
  lemma RejectedEmailAndLevel()
    ensures ValidateField(Personal, "email", Str("user.example.com")) == "Invalid email address"
    ensures ValidateField(Skills, "level", Str("101")) == "Skill level must be between 0 and 100"
  {
    assert ValidateField(Personal, "email", Str("user.example.com")) == "Invalid email address" by {
      assert '@' !in "user.example.com";
    }
    assert IntValue("101") == 101 by {
      assert "101"[..2] == "10";
      assert "10"[..1] == "1";
      assert "1"[..0] == "";
    }
  }

  /** The percentages "85%", "N/A", "-5" and "101" are all rejected. */
  lemma RejectedPercentages()
    ensures ValidatePercentage(Str("85%")) == "Percentage must be a number"
    ensures ValidatePercentage(Str("N/A")) == "Percentage must be a number"
    ensures ValidatePercentage(Str("-5")) == "Percentage must be a number"
    ensures ValidatePercentage(Str("101")) == "Percentage must be between 0 and 100"
  {
    NotDecimal("85%", 2);
    NotDecimal("N/A", 0);
    NotDecimal("-5", 0);
    assert DigitString("101");
    assert DotIndex("101") == 3;
    assert "101"[..3] == "101";
    assert IntValue("101") == 101 by {
      assert "101"[..2] == "10";
      assert "10"[..1] == "1";
      assert "1"[..0] == "";
    }
  }

  /** A string with a character other than a digit or '.' is not decimal. */
  lemma NotDecimal(s: string, k: nat)
    requires k < |s| && !IsDigit(s[k]) && s[k] != '.'
    ensures !IsDecimal(s)
  {
    forall p | 0 < p < |s| && s[p] == '.'
      ensures !(DigitString(s[..p]) && DigitString(s[p + 1..]))
    {
      if k < p {
        assert s[..p][k] == s[k];
      } else if k > p {
        assert s[p + 1..][k - p - 1] == s[k];
      }
    }
  }

  /** The e-mail rule is a substring match: text around the address and even
      white space elsewhere in the value do not make it fail. */
  lemma EmailIsUnanchored()
    ensures ValidateEmail(Str("mail me: a@b.c now")) == ""
  {
    var s := "mail me: a@b.c now";
    assert EmailMatchAt(s, 10, 12);
    assert EmailTest(s);
    EmailTestIsPattern(s);
  }
}
